/** The shared byte budget: int64 admission control over reservations that settle once. */
module Storage {
  import opened Totals

  newtype int64 = x: int | -0x8000_0000_0000_0000 <= x < 0x8000_0000_0000_0000

  const MAX_INT64: int64 := 0x7fff_ffff_ffff_ffff

  /** Two's-complement wrap-around, Go's plain int64 arithmetic. */
  function Wrap(x: int): (r: int64)
    ensures -0x8000_0000_0000_0000 <= x < 0x8000_0000_0000_0000 ==> r as int == x
  {
    ((x + 0x8000_0000_0000_0000) % 0x1_0000_0000_0000_0000 - 0x8000_0000_0000_0000) as int64
  }

  function Sub(a: int64, b: int64): int64 { Wrap(a as int - b as int) }

  function Min(a: int64, b: int64): int64 { if a < b then a else b }

  /** The sum of non-negative amounts, stopped at the largest int64. */
  function SaturatingAdd(left: int64, right: int64): (r: int64)
    ensures left >= 0 && right >= 0 ==>
              r as int == (if left as int + right as int <= MAX_INT64 as int then left as int + right as int
                           else MAX_INT64 as int)
  {
    if right > 0 && left > MAX_INT64 - right then MAX_INT64 else Wrap(left as int + right as int)
  }

  /** Written without the sum, so that it cannot overflow; means used + requested > limit. */
  predicate ExceedsAvailable(limit: int64, used: int64, requested: int64)
    ensures used >= 0 && requested >= 0 ==>
              (ExceedsAvailable(limit, used, requested) <==> used as int + requested as int > limit as int)
  {
    limit < 0 || used > limit || requested > Sub(limit, used)
  }

  // ---------------------------------------------------------------- watermarks

  /** Go's division, which truncates towards zero. */
  function Quotient(a: int, b: int): int
    requires b > 0
  {
    if a >= 0 then a / b else -(-a / b)
  }

  function Remainder(a: int, b: int): int
    requires b > 0
  {
    a - b * Quotient(a, b)
  }

  /** The split keeps every intermediate product within int64, and loses nothing. */
  function ScaleBasisPoints(value: int64, basisPoints: int64): (r: int64)
    requires 0 <= basisPoints <= 10_000
    ensures r as int == Quotient(value as int * basisPoints as int, 10_000)
    ensures if value >= 0 then 0 <= r <= value else value <= r <= 0
  {
    SplitQuotient(value as int, basisPoints as int);
    var whole, rest := Quotient(value as int, 10_000) as int64, Remainder(value as int, 10_000) as int64;
    whole * basisPoints + Quotient((rest * basisPoints) as int, 10_000) as int64
  }

  lemma SplitQuotient(v: int, b: int)
    requires 0 <= b <= 10_000
    ensures Remainder(v, 10_000) * b <= 100_000_000 && Remainder(v, 10_000) * b >= -100_000_000
    ensures Quotient(v, 10_000) * b + Quotient(Remainder(v, 10_000) * b, 10_000) == Quotient(v * b, 10_000)
    ensures v >= 0 ==> 0 <= Quotient(v, 10_000) * b <= v && 0 <= Quotient(v * b, 10_000) <= v
    ensures v < 0 ==> v <= Quotient(v, 10_000) * b <= 0 && v <= Quotient(v * b, 10_000) <= 0
  {
    if v >= 0 {
      SplitFloor(v, b);
      assert Remainder(v, 10_000) == v % 10_000;
      assert v * b >= 0;
    } else {
      SplitFloor(-v, b);
      NegatedProducts(v, b);
    }
  }

  lemma NegatedProducts(v: int, b: int)
    requires v < 0 && 0 <= b
    ensures v * b == -(-v * b) <= 0
    ensures Quotient(v, 10_000) * b == -(-v / 10_000 * b)
    ensures Remainder(v, 10_000) == -(-v % 10_000) && Remainder(v, 10_000) * b == -(-v % 10_000 * b) <= 0
  {
    assert -v == 10_000 * (-v / 10_000) + -v % 10_000;
    Negate(-v, b);
    Negate(-v / 10_000, b);
    Negate(-v % 10_000, b);
  }

  lemma Negate(x: int, b: int)
    requires 0 <= x && 0 <= b
    ensures -x * b == -(x * b) <= 0
  {
  }

  lemma SplitFloor(v: int, b: int)
    requires 0 <= v && 0 <= b <= 10_000
    ensures 0 <= (v / 10_000) * b <= v
    ensures 0 <= (v % 10_000) * b <= 100_000_000
    ensures (v / 10_000) * b + (v % 10_000) * b / 10_000 == v * b / 10_000
    ensures 0 <= v * b / 10_000 <= v
  {
    var q, m := v / 10_000, v % 10_000;
    MulBound(q, b);
    MulBound(m, b);
    assert v * b == 10_000 * (q * b) + m * b by {
      assert v == 10_000 * q + m;
      Distribute(q, m, b);
    }
    DivShift(q * b, m * b);
  }

  lemma MulBound(x: int, b: int)
    requires 0 <= x && 0 <= b <= 10_000
    ensures 0 <= x * b <= x * 10_000
  {
  }

  lemma Distribute(q: int, m: int, b: int)
    ensures (10_000 * q + m) * b == 10_000 * (q * b) + m * b
  {
  }

  lemma DivShift(a: int, c: int)
    ensures (10_000 * a + c) / 10_000 == a + c / 10_000
  {
  }

  lemma MulMonotone(a: int, b: int, x: int, y: int)
    requires 0 <= a <= b && 0 <= x <= y
    ensures a * x <= b * y
  {
    assert a * x <= b * x;
    assert b * x <= b * y;
  }

  /** Watermarks are monotone in the budget and in the ratio, so low <= high <= budget. */
  lemma WatermarksAreOrdered(v: int64, w: int64, low: int64, high: int64)
    requires 0 <= v <= w && 0 <= low <= high <= 10_000
    ensures ScaleBasisPoints(v, low) <= ScaleBasisPoints(w, high) <= w
  {
    MulMonotone(v as int, w as int, low as int, high as int);
    assert 0 <= v as int * low as int;
  }

  // ---------------------------------------------------------------- the ledger

  datatype Ledger = Ledger(
    maxBytes: int64, highBasisPoints: int64, lowBasisPoints: int64, minFreeBytes: int64,
    committed: int64, reserved: int64, bypassObjects: int64, bypassBytes: int64)

  predicate Admits(l: Ledger, bytes: int64, free: int64) {
    && bytes > 0
    && !(l.maxBytes > 0 && ExceedsAvailable(l.maxBytes, SaturatingAdd(l.committed, l.reserved), bytes))
    && !(l.minFreeBytes > 0 && ExceedsAvailable(Sub(free, Min(l.reserved, free)), l.minFreeBytes, bytes))
  }

  function Bypassed(l: Ledger, bytes: int64): Ledger {
    l.(bypassObjects := SaturatingAdd(l.bypassObjects, 1),
       bypassBytes := if bytes > 0 then SaturatingAdd(l.bypassBytes, bytes) else l.bypassBytes)
  }

  function Reserved(l: Ledger, bytes: int64, free: int64): Ledger {
    if Admits(l, bytes, free) then l.(reserved := SaturatingAdd(l.reserved, bytes)) else Bypassed(l, bytes)
  }

  predicate CommitFits(l: Ledger, held: int64, actual: int64, replaced: int64) {
    0 <= actual <= held && 0 <= replaced <= l.committed
  }

  function Settled(l: Ledger, held: int64): Ledger { l.(reserved := Sub(l.reserved, held)) }

  function CommittedLedger(l: Ledger, held: int64, actual: int64, replaced: int64): Ledger {
    if CommitFits(l, held, actual, replaced)
    then Settled(l, held).(committed := SaturatingAdd(Sub(l.committed, replaced), actual))
    else Settled(l, held)
  }

  function Removed(l: Ledger, bytes: int64): Ledger {
    if bytes <= 0 then l
    else l.(committed := if Sub(l.committed, bytes) < 0 then 0 else Sub(l.committed, bytes))
  }

  // ---------------------------------------------------------------- runs

  /** The ledger with the amounts of the reservations that have not settled yet. */
  datatype Book = Book(ledger: Ledger, live: map<nat, nat>, next: nat)

  datatype Operation =
    | Reserve(bytes: int64, free: int64)
    | Commit(id: nat, actual: int64, replaced: int64)
    | Release(id: nat)
    | Remove(bytes: int64)
    | Bypass(bytes: int64)

  /** A settled or unknown reservation is a no-op: sync.Once. */
  function Step(b: Book, e: Operation): Book {
    match e
    case Reserve(n, free) =>
      if Admits(b.ledger, n, free)
      then Book(Reserved(b.ledger, n, free), b.live[b.next := n as nat], b.next + 1)
      else b.(ledger := Reserved(b.ledger, n, free))
    case Commit(id, actual, replaced) =>
      if id in b.live
      then b.(ledger := CommittedLedger(b.ledger, Wrap(b.live[id]), actual, replaced), live := b.live - {id})
      else b
    case Release(id) =>
      if id in b.live then b.(ledger := Settled(b.ledger, Wrap(b.live[id])), live := b.live - {id}) else b
    case Remove(n) => b.(ledger := Removed(b.ledger, n))
    case Bypass(n) => b.(ledger := Bypassed(b.ledger, n))
  }

  function Execute(b: Book, es: seq<Operation>): Book
    decreases es
  {
    if es == [] then b else Execute(Step(b, es[0]), es[1..])
  }

  /** server.go creates a controller only when one of the limits is on. */
  predicate Limited(l: Ledger) { l.maxBytes > 0 || l.minFreeBytes > 0 }

  function Cap(l: Ledger, initial: int64): int { if l.maxBytes > initial then l.maxBytes as int else initial as int }

  ghost predicate Sound(b: Book, initial: int64) {
    && Limited(b.ledger) && b.ledger.committed >= 0
    && (forall id :: id in b.live ==> id < b.next && 0 < b.live[id] <= MAX_INT64 as nat)
    && b.ledger.reserved as int == Total(b.live)
    && (b.ledger.maxBytes > 0 ==>
          b.ledger.committed as int + b.ledger.reserved as int <= Cap(b.ledger, initial))
  }

  /** Admission in plain integers: everything that fits is admitted, and nothing else. Neither the
      saturating sum nor the clamped difference changes an answer. */
  lemma AdmitsWhatFits(l: Ledger, bytes: int64, free: int64)
    requires l.committed >= 0 && l.reserved >= 0
    ensures Admits(l, bytes, free) <==>
              && bytes > 0
              && (l.maxBytes > 0 ==> l.committed as int + l.reserved as int + bytes as int <= l.maxBytes as int)
              && (l.minFreeBytes > 0 ==> l.reserved as int + bytes as int <= free as int - l.minFreeBytes as int)
  {
  }

  /** An admitted reservation fits what is left: the addition is exact, and with a free-space
      floor all live reservations together leave the floor untouched. */
  lemma AdmissionFits(l: Ledger, bytes: int64, free: int64)
    requires Limited(l) && l.committed >= 0 && l.reserved >= 0 && Admits(l, bytes, free)
    ensures l.reserved as int + bytes as int <= MAX_INT64 as int
    ensures Reserved(l, bytes, free).reserved as int == l.reserved as int + bytes as int
    ensures l.maxBytes > 0 ==> l.committed as int + l.reserved as int + bytes as int <= l.maxBytes as int
    ensures l.minFreeBytes > 0 ==> l.reserved as int + bytes as int <= free as int - l.minFreeBytes as int
  {
  }

  lemma SettleKeepsSum(b: Book, id: nat, initial: int64)
    requires Sound(b, initial) && id in b.live
    ensures Wrap(b.live[id]) as int == b.live[id]
    ensures Settled(b.ledger, Wrap(b.live[id])).reserved as int == Total(b.live - {id}) <= b.ledger.reserved as int
  {
    TotalRemove(b.live, id);
  }

  lemma ReserveIsSound(b: Book, n: int64, free: int64, initial: int64)
    requires Sound(b, initial) && Admits(b.ledger, n, free)
    ensures Sound(Step(b, Reserve(n, free)), initial)
  {
    AdmissionFits(b.ledger, n, free);
    assert b.next !in b.live;
    assert b.live - {b.next} == b.live;
    TotalUpdate(b.live, b.next, n as nat);
  }

  lemma CommitIsSound(b: Book, id: nat, actual: int64, replaced: int64, initial: int64)
    requires Sound(b, initial) && id in b.live
    ensures Sound(Step(b, Commit(id, actual, replaced)), initial)
  {
    SettleKeepsSum(b, id, initial);
    TotalRemove(b.live, id);
  }

  lemma StepIsSound(b: Book, e: Operation, initial: int64)
    requires Sound(b, initial)
    ensures Sound(Step(b, e), initial)
  {
    match e
    case Reserve(n, free) =>
      if Admits(b.ledger, n, free) { ReserveIsSound(b, n, free, initial); }
    case Commit(id, actual, replaced) =>
      if id in b.live { CommitIsSound(b, id, actual, replaced, initial); }
    case Release(id) =>
      if id in b.live { SettleKeepsSum(b, id, initial); }
    case Remove(n) =>
    case Bypass(n) =>
  }

  /** Budget safety over every run by any number of holders: the reserved counter is exactly
      the sum of the unsettled reservations, and usage never exceeds the budget, or the usage
      found at startup where that was already larger. */
  lemma {:induction false} RunIsSound(b: Book, es: seq<Operation>, initial: int64)
    requires Sound(b, initial)
    ensures Sound(Execute(b, es), initial)
    decreases es
  {
    if es != [] {
      StepIsSound(b, es[0], initial);
      RunIsSound(Step(b, es[0]), es[1..], initial);
    }
  }

  function Fresh(l: Ledger): Book { Book(l.(reserved := 0), map[], 0) }

  /** The startup condition is exact: with both limits off some run drives the counter negative;
      with one of them on no run does. */
  lemma ReservedNeverNegativeIffLimited(l: Ledger)
    requires l.committed >= 0
    ensures Limited(l) <==> forall es :: Execute(Fresh(l), es).ledger.reserved >= 0
  {
    if Limited(l) {
      forall es
        ensures Execute(Fresh(l), es).ledger.reserved >= 0
      {
        assert Sound(Fresh(l), l.committed);
        RunIsSound(Fresh(l), es, l.committed);
      }
    } else {
      var es := [Reserve(MAX_INT64, 0), Reserve(MAX_INT64, 0), Release(0), Release(1)];
      UnlimitedRun(l, es);
    }
  }

  lemma ExecuteStep(b: Book, e: Operation, rest: seq<Operation>)
    ensures Execute(b, [e] + rest) == Execute(Step(b, e), rest)
  {
    assert ([e] + rest)[1..] == rest;
  }

  lemma UnlimitedReserve(b: Book)
    requires !Limited(b.ledger) && (b.ledger.reserved == 0 || b.ledger.reserved == MAX_INT64)
    ensures Step(b, Reserve(MAX_INT64, 0))
         == Book(b.ledger.(reserved := MAX_INT64), b.live[b.next := MAX_INT64 as nat], b.next + 1)
  {
  }

  lemma FullRelease(b: Book, id: nat)
    requires id in b.live && b.live[id] == MAX_INT64 as nat
    requires b.ledger.reserved == 0 || b.ledger.reserved == MAX_INT64
    ensures Step(b, Release(id)) == Book(b.ledger.(reserved := b.ledger.reserved - MAX_INT64), b.live - {id}, b.next)
  {
  }

  lemma ExecuteFour(b: Book, es: seq<Operation>)
    requires |es| == 4
    ensures Execute(b, es) == Step(Step(Step(Step(b, es[0]), es[1]), es[2]), es[3])
  {
    ExecuteStep(b, es[0], es[1..]);
    ExecuteStep(Step(b, es[0]), es[1], es[2..]);
    ExecuteStep(Step(Step(b, es[0]), es[1]), es[2], es[3..]);
    ExecuteStep(Step(Step(Step(b, es[0]), es[1]), es[2]), es[3], []);
    assert es == [es[0]] + es[1..] && es[1..] == [es[1]] + es[2..] && es[2..] == [es[2]] + es[3..];
    assert es[3..] == [es[3]] + [];
  }

  /** Two reservations of everything stop at the largest int64; releasing both takes it off twice. */
  lemma UnlimitedEnds(b: Book)
    requires !Limited(b.ledger) && b.ledger.reserved == 0 && b.next == 0
    ensures var held := Step(Step(b, Reserve(MAX_INT64, 0)), Reserve(MAX_INT64, 0));
            Step(Step(held, Release(0)), Release(1)).ledger.reserved < 0
  {
    UnlimitedReserve(b);
    UnlimitedReserve(Step(b, Reserve(MAX_INT64, 0)));
    var held := Step(Step(b, Reserve(MAX_INT64, 0)), Reserve(MAX_INT64, 0));
    FullRelease(held, 0);
    FullRelease(Step(held, Release(0)), 1);
  }

  lemma UnlimitedRun(l: Ledger, es: seq<Operation>)
    requires !Limited(l) && es == [Reserve(MAX_INT64, 0), Reserve(MAX_INT64, 0), Release(0), Release(1)]
    ensures Execute(Fresh(l), es).ledger.reserved < 0
  {
    ExecuteFour(Fresh(l), es);
    UnlimitedEnds(Fresh(l));
  }

  /** A reservation settles once: after a commit or release every later commit or release of it,
      in any run, changes nothing. */
  lemma {:induction false} SettlesOnce(b: Book, es: seq<Operation>, id: nat)
    requires id !in b.live && id < b.next
    ensures var later := Execute(b, es);
            && id !in later.live && id < later.next
            && Step(later, Release(id)) == later
            && forall actual, replaced :: Step(later, Commit(id, actual, replaced)) == later
    decreases es
  {
    if es != [] { SettlesOnce(Step(b, es[0]), es[1..], id); }
  }

  // ---------------------------------------------------------------- the running controller

  class Reservation {
    const controller: Controller
    const bytes: int64
    var settled: bool

    constructor (controller: Controller, bytes: int64)
      ensures this.controller == controller && this.bytes == bytes && !settled
    {
      this.controller, this.bytes, this.settled := controller, bytes, false;
    }

    /** Converts the reservation into committed usage; only the first settlement counts. */
    method Commit(actualBytes: int64, replacedBytes: int64) returns (ok: bool)
      requires controller.Valid() && (settled || this in controller.open)
      modifies this, controller
      ensures controller.Valid() && settled
      ensures old(settled) ==>
                !ok && controller.State() == old(controller.State()) && controller.open == old(controller.open)
      ensures !old(settled) ==>
                && ok == CommitFits(old(controller.State()), bytes, actualBytes, replacedBytes)
                && controller.State() == CommittedLedger(old(controller.State()), bytes, actualBytes, replacedBytes)
                && controller.open == old(controller.open) - {this}
                && controller.reserved as int == old(controller.reserved) as int - bytes as int
                && (ok <==> 0 <= actualBytes <= bytes && 0 <= replacedBytes <= old(controller.committed))
                && (!ok ==> controller.committed == old(controller.committed))
                && (ok ==>
                      var exact := old(controller.committed) as int - replacedBytes as int + actualBytes as int;
                      controller.committed as int == if exact <= MAX_INT64 as int then exact else MAX_INT64 as int)
      ensures controller.cap == old(controller.cap)
    {
      ok := false;
      if !settled {
        controller.TakeOut(this);
        if 0 <= actualBytes && actualBytes <= bytes && 0 <= replacedBytes && replacedBytes <= controller.committed {
          controller.committed := controller.committed - replacedBytes;
          controller.committed := SaturatingAdd(controller.committed, actualBytes);
          ok := true;
        }
      }
    }

    method Release()
      requires controller.Valid() && (settled || this in controller.open)
      modifies this, controller
      ensures controller.Valid() && settled
      ensures old(settled) ==> controller.State() == old(controller.State()) && controller.open == old(controller.open)
      ensures !old(settled) ==>
                && controller.State() == Settled(old(controller.State()), bytes)
                && controller.open == old(controller.open) - {this}
                && controller.reserved as int == old(controller.reserved) as int - bytes as int
                && controller.committed == old(controller.committed)
      ensures controller.cap == old(controller.cap)
    {
      if !settled {
        controller.TakeOut(this);
      }
    }
  }

  class Controller {
    const maxBytes: int64
    const highBasisPoints: int64
    const lowBasisPoints: int64
    const minFreeBytes: int64
    var committed: int64
    var reserved: int64
    var bypassObjects: int64
    var bypassBytes: int64
    ghost var open: map<Reservation, nat>
    ghost var cap: int

    ghost function State(): Ledger
      reads this
    {
      Ledger(maxBytes, highBasisPoints, lowBasisPoints, minFreeBytes,
             committed, reserved, bypassObjects, bypassBytes)
    }

    /** The reserved counter is the sum of the unsettled reservations, and usage is within the cap. */
    ghost predicate Valid()
      reads this, open.Keys
    {
      && Limited(State()) && maxBytes as int <= cap && 0 <= lowBasisPoints <= 10_000 && 0 <= highBasisPoints <= 10_000
      && committed >= 0 && bypassObjects >= 0 && bypassBytes >= 0
      && reserved as int == Total(open)
      && (forall r :: r in open ==> !r.settled && r.controller == this && r.bytes as int == open[r] && r.bytes > 0)
      && (maxBytes > 0 ==> committed as int + reserved as int <= cap)
    }

    constructor (maxBytes: int64, highBasisPoints: int64, lowBasisPoints: int64, minFreeBytes: int64, committed: int64)
      requires (maxBytes > 0 || minFreeBytes > 0) && committed >= 0
      requires 0 <= lowBasisPoints <= 10_000 && 0 <= highBasisPoints <= 10_000
      ensures Valid() && open == map[] && reserved == 0 && this.committed == committed
      ensures this.maxBytes == maxBytes && this.minFreeBytes == minFreeBytes
      ensures this.lowBasisPoints == lowBasisPoints && this.highBasisPoints == highBasisPoints
      ensures cap == if maxBytes > committed then maxBytes as int else committed as int
    {
      this.maxBytes, this.minFreeBytes := maxBytes, minFreeBytes;
      this.highBasisPoints, this.lowBasisPoints := highBasisPoints, lowBasisPoints;
      this.committed, this.reserved, this.bypassObjects, this.bypassBytes := committed, 0, 0, 0;
      this.open := map[];
      this.cap := if maxBytes > committed then maxBytes as int else committed as int;
    }

    /** Null means: proxy the object without caching it. */
    method Reserve(bytes: int64, filesystemFreeBytes: int64) returns (r: Reservation?)
      requires Valid()
      modifies this
      ensures Valid() && cap == old(cap)
      ensures State() == Reserved(old(State()), bytes, filesystemFreeBytes)
      ensures r == null <==> !Admits(old(State()), bytes, filesystemFreeBytes)
      ensures r != null <==>
                && bytes > 0
                && (maxBytes > 0 ==> old(committed) as int + old(reserved) as int + bytes as int <= maxBytes as int)
                && (minFreeBytes > 0 ==>
                      old(reserved) as int + bytes as int <= filesystemFreeBytes as int - minFreeBytes as int)
      ensures committed == old(committed)
      ensures reserved as int == old(reserved) as int + if r != null then bytes as int else 0
      ensures r == null ==> open == old(open)
      ensures r != null ==> fresh(r) && r.controller == this && r.bytes == bytes && open == old(open)[r := bytes as nat]
    {
      AdmitsWhatFits(State(), bytes, filesystemFreeBytes);
      var budgetUsed := SaturatingAdd(committed, reserved);
      var availableFilesystem := filesystemFreeBytes - Min(reserved, filesystemFreeBytes);
      if bytes <= 0 || (maxBytes > 0 && ExceedsAvailable(maxBytes, budgetUsed, bytes))
         || (minFreeBytes > 0 && ExceedsAvailable(availableFilesystem, minFreeBytes, bytes)) {
        bypassObjects := SaturatingAdd(bypassObjects, 1);
        if bytes > 0 {
          bypassBytes := SaturatingAdd(bypassBytes, bytes);
        }
        return null;
      }
      AdmissionFits(State(), bytes, filesystemFreeBytes);
      var admitted := new Reservation(this, bytes);
      reserved := SaturatingAdd(reserved, bytes);
      assert admitted !in open && open - {admitted} == open;
      TotalUpdate(open, admitted, bytes as nat);
      open := open[admitted := bytes as nat];
      assert reserved as int == Total(open);
      r := admitted;
    }

    method RecordBypass(bytes: int64)
      requires Valid()
      modifies this
      ensures Valid() && open == old(open) && cap == old(cap)
      ensures State() == Bypassed(old(State()), bytes)
      ensures committed == old(committed) && reserved == old(reserved)
      ensures old(bypassObjects) < MAX_INT64 ==> bypassObjects == old(bypassObjects) + 1
      ensures old(bypassBytes) as int + bytes as int <= MAX_INT64 as int ==>
                bypassBytes as int == old(bypassBytes) as int + if bytes > 0 then bytes as int else 0
    {
      bypassObjects := SaturatingAdd(bypassObjects, 1);
      if bytes > 0 {
        bypassBytes := SaturatingAdd(bypassBytes, bytes);
      }
    }

    /** The part of a settlement that runs once: the reserved amount is given back. */
    method TakeOut(r: Reservation)
      requires Valid() && r in open
      modifies this, r
      ensures Valid() && r.settled && open == old(open) - {r} && cap == old(cap)
      ensures State() == Settled(old(State()), r.bytes)
      ensures reserved as int == old(reserved) as int - r.bytes as int
    {
      TotalRemove(open, r);
      reserved := reserved - r.bytes;
      r.settled := true;
      open := open - {r};
    }

    method Remove(bytes: int64)
      requires Valid()
      modifies this
      ensures Valid() && open == old(open) && cap == old(cap)
      ensures State() == Removed(old(State()), bytes)
      ensures reserved == old(reserved)
      ensures committed as int == if bytes <= 0 then old(committed) as int
                                  else if bytes > old(committed) then 0 else old(committed) as int - bytes as int
    {
      if bytes <= 0 {
        return;
      }
      committed := committed - bytes;
      if committed < 0 {
        committed := 0;
      }
    }

    /** Usage has reached the high watermark of a byte budget. */
    ghost predicate UnderPressure()
      reads this
    {
      && maxBytes > 0
      && committed as int + reserved as int >= Quotient(maxBytes as int * highBasisPoints as int, 10_000)
    }

    /** Usage, watermarks and the pressure signal at one instant. */
    method Snapshot() returns (s: Usage)
      requires Valid()
      ensures s.committed == committed && s.reserved == reserved
      ensures s.highBytes as int == Quotient(maxBytes as int * highBasisPoints as int, 10_000)
      ensures s.lowBytes as int == Quotient(maxBytes as int * lowBasisPoints as int, 10_000)
      ensures maxBytes >= 0 && lowBasisPoints <= highBasisPoints ==> 0 <= s.lowBytes <= s.highBytes <= maxBytes
      ensures maxBytes >= 0 && 0 <= lowBasisPoints && 0 <= highBasisPoints ==>
                && s.lowBytes as int == maxBytes as int * lowBasisPoints as int / 10_000
                && s.highBytes as int == maxBytes as int * highBasisPoints as int / 10_000
      ensures s.pressure <==> maxBytes > 0 && committed as int + reserved as int >= s.highBytes as int
      ensures s.pressure <==> UnderPressure()
    {
      if maxBytes >= 0 && lowBasisPoints <= highBasisPoints {
        WatermarksAreOrdered(maxBytes, maxBytes, lowBasisPoints, highBasisPoints);
      }
      var highBytes := ScaleBasisPoints(maxBytes, highBasisPoints);
      var lowBytes := ScaleBasisPoints(maxBytes, lowBasisPoints);
      s := Usage(highBytes, lowBytes, committed, reserved,
                 maxBytes > 0 && SaturatingAdd(committed, reserved) >= highBytes);
    }
  }

  datatype Usage = Usage(highBytes: int64, lowBytes: int64, committed: int64, reserved: int64, pressure: bool)
}
