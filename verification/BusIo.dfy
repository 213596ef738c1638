/** The IO slots of a bus: work of the lanes other than Serve takes an auxiliary
    slot before an IO slot, and there are half as many of those. */
module BusIo {
  import opened Semaphores
  import opened Counts

  const DEFAULT_IO := 16

  function Max(a: int, b: int): int {
    if a < b then b else a
  }

  /** ios holds, for each auxiliary call that went on to the IO slots, its call
      there. */
  datatype Bus = Bus(aux: Slots, io: Slots, ios: map<nat, nat>)

  function IoOf(io: int): int {
    if io <= 0 then DEFAULT_IO else io
  }

  function NewBus(io: int): Bus {
    Bus(New(Max(1, IoOf(io) / 2)), New(IoOf(io)), map[])
  }

  /** Serve acquires IO slots alone; the others an auxiliary one first, and
      release them in the opposite order. */
  datatype Move =
    | Serve(step: Step)
    | TakeAux
    | EndAux(aux: nat)
    | TakeIo(aux: nat)
    | CancelIo(aux: nat)
    | ReleaseIo(aux: nat)

  /** A step of Serve's own calls. */
  predicate Own(b: Bus, step: Step) {
    !step.Resize? && (step.Cancel? || step.Release? ==> step.call !in b.ios.Values)
  }

  function Moved(b: Bus, m: Move): Bus {
    match m
    case Serve(step) => if Own(b, step) then b.(io := After(b.io, step)) else b
    case TakeAux => b.(aux := After(b.aux, Acquire))
    case EndAux(a) => if a !in b.ios then b.(aux := After(b.aux, Cancel(a))) else b
    case TakeIo(a) =>
      if a in b.aux.held && a !in b.ios then b.(io := After(b.io, Acquire), ios := b.ios[a := b.io.next]) else b
    case CancelIo(a) =>
      if a in b.ios then b.(io := After(b.io, Cancel(b.ios[a])), ios := b.ios - {a}) else b
    case ReleaseIo(a) =>
      if a in b.ios && b.ios[a] in b.io.held then b.(io := After(b.io, Release(b.ios[a])), ios := b.ios - {a}) else b
  }

  function Run(b: Bus, moves: seq<Move>): Bus {
    if moves == [] then b else Moved(Run(b, moves[..|moves|-1]), moves[|moves|-1])
  }

  /** The auxiliary calls that hold an IO slot. */
  function Running(b: Bus): set<nat> {
    set a | a in b.ios && b.ios[a] in b.io.held
  }

  ghost predicate Sound(b: Bus) {
    && Ordered(b.aux) && Busy(b.aux) && b.aux.used <= b.aux.size
    && Ordered(b.io) && Busy(b.io) && b.io.used <= b.io.size
    && forall a :: a in b.ios ==> a in b.aux.held
  }

  lemma SlotsKeep(s: Slots, step: Step)
    requires Ordered(s) && Busy(s) && s.used <= s.size && !step.Resize?
    ensures var t := After(s, step); Ordered(t) && Busy(t) && t.used <= t.size == s.size
    ensures forall a :: a in s.held && (step.Cancel? || step.Release? ==> a != step.call) ==> a in After(s, step).held
  {
    StepKeeps(s, step);
  }

  lemma MoveKeeps(b: Bus, m: Move)
    requires Sound(b)
    ensures Sound(Moved(b, m)) && Moved(b, m).aux.size == b.aux.size && Moved(b, m).io.size == b.io.size
  {
    match m
    case Serve(step) => if Own(b, step) { SlotsKeep(b.io, step); }
    case TakeAux => SlotsKeep(b.aux, Acquire);
    case EndAux(a) => SlotsKeep(b.aux, Cancel(a));
    case TakeIo(a) => SlotsKeep(b.io, Acquire);
    case CancelIo(a) => if a in b.ios { SlotsKeep(b.io, Cancel(b.ios[a])); }
    case ReleaseIo(a) => if a in b.ios { SlotsKeep(b.io, Release(b.ios[a])); }
  }

  lemma {:induction false} RunSound(io: int, moves: seq<Move>)
    ensures var b := Run(NewBus(io), moves);
            Sound(b) && b.aux.size == Max(1, IoOf(io) / 2) && b.io.size == IoOf(io)
  {
    if moves != [] {
      RunSound(io, moves[..|moves|-1]);
      MoveKeeps(Run(NewBus(io), moves[..|moves|-1]), moves[|moves|-1]);
    }
  }

  /** In every run, all lanes together hold at most the IO slots there are, and
      those other than Serve at most half of them, rounded down but not to
      nothing. */
  lemma HalfForOthers(io: int, moves: seq<Move>)
    ensures var b := Run(NewBus(io), moves);
            |b.io.held| <= IoOf(io) && |Running(b)| <= Max(1, IoOf(io) / 2)
  {
    var b := Run(NewBus(io), moves);
    RunSound(io, moves);
    Subset(Running(b), b.aux.held);
  }
}
