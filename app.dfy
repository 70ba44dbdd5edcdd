/** The host application: the game-state cell with its two transitions,
    `handleReveal` and `handleRetry`, and the scratch card it mounts for the
    current coupon, whose `onReveal` is `handleReveal`. */
module App {
  import opened Types
  import opened GameLogic
  import opened Scratch

  /** The points collected over a sequence of revealed coupons. */
  function PointsOf(history: seq<Coupon>): int
  {
    if history == [] then 0
    else PointsOf(history[..|history| - 1]) + history[|history| - 1].pointsValue
  }

  predicate AllWellFormed(history: seq<Coupon>)
  {
    forall i :: 0 <= i < |history| ==> WellFormed(history[i])
  }

  /** Every reveal adds 0, 10, 50 or 100 points, so the total is a
      non-negative multiple of 10 and at most 100 per game played. */
  lemma {:induction false} PointsOfBounds(history: seq<Coupon>)
    requires AllWellFormed(history)
    ensures PointsOf(history) % 10 == 0
    ensures 0 <= PointsOf(history) <= 100 * |history|
  {
    if history != [] {
      var last := history[|history| - 1];
      assert WellFormed(last);
      var prefix := history[..|history| - 1];
      assert AllWellFormed(prefix) by {
        forall i | 0 <= i < |prefix|
          ensures WellFormed(prefix[i])
        {
          assert prefix[i] == history[i];
        }
      }
      PointsOfBounds(prefix);
    }
  }

  class App {
    var gameState: GameState
    /** The mounted scratch card. */
    var card: ScratchCard
    /** The coupons revealed so far, oldest first. */
    ghost var history: seq<Coupon>

    ghost predicate Valid()
      reads this, card, card.pixels
    {
      && card.Valid()
      && (gameState.currentCoupon.Some? ==> WellFormed(gameState.currentCoupon.value))
      && AllWellFormed(history)
      && gameState.totalPoints == PointsOf(history)
      && gameState.gamesPlayed == |history|
    }

    /** A coupon is shown and the mounted card agrees with the game on
        whether it has been revealed. */
    ghost predicate InSync()
      reads this, card
    {
      gameState.currentCoupon.Some? && card.isRevealed == gameState.isRevealed
    }

    /** The "Try Another Card" button is rendered. */
    predicate RetryOffered()
      reads this
    {
      gameState.isRevealed
    }

    /** The initial state: a fresh coupon, nothing revealed, no points, no
        games, and a card freshly mounted with layout `at`. */
    constructor (now: nat, u: real, at: Layout)
      requires at.width > 0 && at.height > 0
      ensures Valid() && InSync() && fresh(card) && fresh(card.pixels)
      ensures gameState.currentCoupon.Some?
      ensures gameState.currentCoupon.value.id == CouponId(now)
      ensures gameState.currentCoupon.value.rewardType == DrawCategory(u * TotalWeight() as real)
      ensures !gameState.isRevealed && gameState.totalPoints == 0 && gameState.gamesPlayed == 0
      ensures history == [] && !RetryOffered()
      ensures card.mount == at
      ensures card.dpr == if at.devicePixelRatio == 0 then 1 else at.devicePixelRatio
      ensures !card.isScratching && !card.isRevealed && card.Transparent() == 0
    {
      var coupon := GenerateCoupon(now, u);
      gameState := GameState(Some(coupon), false, 0, 0);
      card := new ScratchCard(at);
      history := [];
    }

    /** `handleReveal`: with a coupon, mark the game revealed and credit the
        coupon's points and one game; without one, do nothing. */
    method HandleReveal()
      requires Valid()
      modifies this
      ensures Valid() && card == old(card)
      ensures old(gameState.currentCoupon).Some? ==>
                && gameState.currentCoupon == old(gameState.currentCoupon)
                && gameState.isRevealed
                && gameState.totalPoints == old(gameState.totalPoints) + old(gameState.currentCoupon).value.pointsValue
                && gameState.gamesPlayed == old(gameState.gamesPlayed) + 1
                && history == old(history) + [old(gameState.currentCoupon).value]
      ensures old(gameState.currentCoupon).None? ==> gameState == old(gameState) && history == old(history)
    {
      if gameState.currentCoupon.Some? {
        var coupon := gameState.currentCoupon.value;
        gameState := gameState.(
          isRevealed := true,
          totalPoints := gameState.totalPoints + coupon.pointsValue,
          gamesPlayed := gameState.gamesPlayed + 1);
        history := history + [coupon];
        assert history[..|history| - 1] == old(history);
      }
    }

    /** `handleRetry` with the card remounted for the new coupon: the totals
        are kept, the game is hidden again, and a fresh card covers the new
        coupon, mounted with the layout `at` of that moment. */
    method HandleRetry(now: nat, u: real, at: Layout)
      requires Valid() && at.width > 0 && at.height > 0
      modifies this
      ensures Valid() && InSync() && fresh(card) && fresh(card.pixels)
      ensures gameState.currentCoupon.Some?
      ensures gameState.currentCoupon.value.id == CouponId(now)
      ensures gameState.currentCoupon.value.rewardType == DrawCategory(u * TotalWeight() as real)
      ensures !gameState.isRevealed && !RetryOffered()
      ensures gameState.totalPoints == old(gameState.totalPoints)
      ensures gameState.gamesPlayed == old(gameState.gamesPlayed)
      ensures history == old(history)
      ensures card.mount == at
      ensures card.dpr == if at.devicePixelRatio == 0 then 1 else at.devicePixelRatio
      ensures !card.isScratching && !card.isRevealed && card.Transparent() == 0
    {
      var coupon := GenerateCoupon(now, u);
      gameState := GameState(Some(coupon), false, gameState.totalPoints, gameState.gamesPlayed);
      card := new ScratchCard(at);
    }

    /** `handleRetry` as the application runs it: the card element has no
        `key`, so the same component instance stays mounted with its state
        and its erased canvas. A revealed card stays revealed while the game
        is hidden again. */
    method HandleRetryAsWritten(now: nat, u: real)
      requires Valid()
      modifies this
      ensures Valid() && card == old(card)
      ensures gameState.currentCoupon.Some?
      ensures gameState.currentCoupon.value.id == CouponId(now)
      ensures gameState.currentCoupon.value.rewardType == DrawCategory(u * TotalWeight() as real)
      ensures !gameState.isRevealed
      ensures gameState.totalPoints == old(gameState.totalPoints)
      ensures gameState.gamesPlayed == old(gameState.gamesPlayed)
      ensures history == old(history)
      ensures old(card.isRevealed) ==> card.isRevealed && !InSync()
    {
      var coupon := GenerateCoupon(now, u);
      gameState := GameState(Some(coupon), false, gameState.totalPoints, gameState.gamesPlayed);
    }

    /** A pointer event on the mounted card, whose layout reads `at`; when
        the card calls `onReveal` the game's `handleReveal` runs. */
    method CardEvent(e: PointerEvent, at: Layout) returns (fired: bool)
      requires Valid()
      requires e.TouchStart? || (e.TouchMove? && card.isScratching) ==> |e.touches| > 0
      modifies this, card, card.pixels
      ensures Valid() && card == old(card)
      ensures fired <==> !old(card.isRevealed) && card.isRevealed
      ensures old(card.isRevealed) ==> card.isRevealed
      ensures card.isScratching ==
                (e.MouseDown? || e.TouchStart? || (old(card.isScratching) && (e.MouseMove? || e.TouchMove?)))
      ensures e.MouseDown? || (e.MouseMove? && old(card.isScratching)) ==> card.Scratched(e.p, at, fired)
      ensures e.TouchStart? || (e.TouchMove? && old(card.isScratching)) ==> card.Scratched(e.touches[0], at, fired)
      ensures (e.MouseMove? || e.TouchMove?) && !old(card.isScratching) ==> card.Untouched(fired)
      ensures (e.MouseUp? || e.MouseLeave? || e.TouchEnd?) ==> card.Untouched(fired)
      ensures old(card.isRevealed) ==> card.Untouched(fired)
      ensures old(card.Transparent()) <= card.Transparent()
      ensures old(InSync()) ==> InSync()
      ensures old(InSync()) && fired ==> RetryOffered() && !old(RetryOffered())
      ensures gameState ==
                if fired && old(gameState.currentCoupon).Some? then
                  old(gameState).(
                    isRevealed := true,
                    totalPoints := old(gameState.totalPoints) + old(gameState.currentCoupon).value.pointsValue,
                    gamesPlayed := old(gameState.gamesPlayed) + 1)
                else old(gameState)
      ensures history ==
                if fired && old(gameState.currentCoupon).Some? then old(history) + [old(gameState.currentCoupon).value]
                else old(history)
    {
      fired := card.Dispatch(e, at);
      if fired {
        HandleReveal();
      }
    }
  }

  /** In every reachable game state the points total is a non-negative
      multiple of 10, at most 100 per game played, and the count of games
      is the number of reveals. */
  lemma TotalsBounded(app: App)
    requires app.Valid()
    ensures app.gameState.totalPoints % 10 == 0
    ensures 0 <= app.gameState.totalPoints <= 100 * app.gameState.gamesPlayed
  {
    PointsOfBounds(app.history);
  }

  /** After the unkeyed retry of a revealed game, no later event on the card
      is credited and the retry button does not come back. */
  method RetryAsWrittenStrandsGame(app: App, now: nat, u: real, e: PointerEvent, at: Layout)
    requires app.Valid() && app.InSync() && app.gameState.isRevealed
    requires e.TouchStart? || e.TouchMove? ==> |e.touches| > 0
    modifies app, app.card, app.card.pixels
    ensures app.Valid() && app.card.isRevealed && !app.InSync()
    ensures app.gameState.gamesPlayed == old(app.gameState.gamesPlayed)
    ensures app.gameState.totalPoints == old(app.gameState.totalPoints)
    ensures !app.RetryOffered()
  {
    app.HandleRetryAsWritten(now, u);
    var fired := app.CardEvent(e, at);
  }

  /** A one-pixel card at the client origin, at ratio 1. */
  const OnePixel := Layout(0, 0, 1, 1, 1)

  /** On a one-pixel canvas at ratio 1, a press at the card's corner fills
      a disc of radius 30 around the canvas origin, which erases the pixel. */
  lemma OnePixelErased(s: seq<int>)
    requires |s| == 4 && IsByteBuffer(s)
    ensures BrushDiscAsWritten(Point(0, 0), OnePixel, 1, 1, 1) == Some(Disc(0.0, 0.0, 30.0))
    ensures TransparentCount(Erased(s, 1, Some(Disc(0.0, 0.0, 30.0))), 1) == 1
  {
  }

  /** The same on a one-pixel card: one click reveals the first coupon, the
      unkeyed retry installs a second one, and a click on it is no longer
      counted. */
  method RetryAsWrittenExample() returns (gamesPlayed: int, retryOffered: bool)
    ensures gamesPlayed == 1 && !retryOffered
  {
    var app := new App(0, 0.0, OnePixel);
    ghost var before := app.card.pixels[..];
    assert app.card.width == 1 && app.card.height == 1 && app.card.dpr == 1;
    var fired := app.CardEvent(MouseDown(Point(0, 0)), OnePixel);
    OnePixelErased(before);
    assert fired;
    app.HandleRetryAsWritten(1, 0.0);
    fired := app.CardEvent(MouseDown(Point(0, 0)), OnePixel);
    gamesPlayed := app.gameState.gamesPlayed;
    retryOffered := app.RetryOffered();
  }

  /** With the card remounted on retry, the second coupon is credited like
      the first and the retry button comes back. */
  method RetryExample() returns (gamesPlayed: int, retryOffered: bool)
    ensures gamesPlayed == 2 && retryOffered
  {
    var app := new App(0, 0.0, OnePixel);
    ghost var before := app.card.pixels[..];
    assert app.card.width == 1 && app.card.height == 1 && app.card.dpr == 1;
    var fired := app.CardEvent(MouseDown(Point(0, 0)), OnePixel);
    OnePixelErased(before);
    assert fired;
    app.HandleRetry(1, 0.0, OnePixel);
    before := app.card.pixels[..];
    assert app.card.width == 1 && app.card.height == 1 && app.card.dpr == 1;
    fired := app.CardEvent(MouseDown(Point(0, 0)), OnePixel);
    OnePixelErased(before);
    assert fired;
    gamesPlayed := app.gameState.gamesPlayed;
    retryOffered := app.RetryOffered();
  }
}
