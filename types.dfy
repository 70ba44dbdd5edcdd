/** The records shared by the reward generator, the scratch card and the
    host application: the four reward categories, a coupon, and the
    application's game state. */
module Types {

  /** `T | null` of the source, and the usual optional value. */
  datatype Option<+T> = None | Some(value: T)

  /** The closed set of reward categories. */
  datatype RewardType = BetterLuck | Points10 | Points50 | Points100

  /** One generated card. `isRevealed` is created false and no operation of
      the program ever sets it; whether the current card has been revealed
      is recorded in `GameState.isRevealed` instead. */
  datatype Coupon = Coupon(id: string, rewardType: RewardType, pointsValue: int, isRevealed: bool)

  /** The application's single state cell. */
  datatype GameState = GameState(
    currentCoupon: Option<Coupon>,
    isRevealed: bool,
    totalPoints: int,
    gamesPlayed: int)
}
