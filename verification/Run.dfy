/** A whole run: workers that send results over a bounded channel, the goroutine that starts them, waits
    for them and closes the channel, and the consumer that folds what it receives into statistics
    (cmd/edg/run.go). */
module Run {
  import Stats

  /** What the coordinating goroutine does, one after the other. */
  datatype Action =
    | StartWorkers(n: nat) | StartBackground(n: nat) | CheckCancelled
    | WaitWorkers | CancelBackground | WaitBackground | Close

  /** A worker is between results, blocked on sending one, or has returned. */
  datatype Status = Idle | Holding(result: Stats.Result) | Gone
  datatype Worker = Worker(background: bool, status: Status)

  /** A result and the worker it comes from. */
  datatype Item = Item(worker: nat, result: Stats.Result)

  datatype Setup = Setup(program: seq<Action>, capacity: nat, staged: bool)

  /** The results channel and its consumer. `sent` and `received` are histories; `inputs` is what the
      consumer's select has picked. */
  datatype Channel = Channel(
    buffer: seq<Item>, closed: bool, stopped: bool, inputs: seq<Stats.Input>, sent: seq<Item>, received: seq<Item>)

  /** `produced` is a history too. */
  datatype State = State(
    rest: seq<Action>, crew: seq<Worker>, cancelled: bool, stageOver: bool, backgroundCancelled: bool,
    panicked: bool, produced: seq<Item>, channel: Channel)

  /** `CheckCancelled` breaks out of the stage loop when the context is done. */
  function Stages(workers: seq<int>): seq<Action> {
    if workers == [] then []
    else [CheckCancelled, StartWorkers(if workers[0] <= 0 then 1 else workers[0]), WaitWorkers] + Stages(workers[1..])
  }

  /** `runStages`, for the worker numbers of its stages. */
  function RunStages(stages: seq<int>, background: nat): Setup {
    Setup([StartBackground(background)] + (Stages(stages) + [CancelBackground, WaitBackground, Close]), 1000, true)
  }

  /** `runStage`: one context, cancelled by a timer, for all workers. */
  function RunStage(workers: nat, background: nat): Setup {
    Setup([StartWorkers(workers), StartBackground(background), WaitWorkers, WaitBackground, Close], workers * 100, false)
  }

  function Initial(setup: Setup): State {
    State(setup.program, [], false, false, false, false, [], Channel([], false, false, [], [], []))
  }

  // --------------------------------------------------------------------- steps

  datatype Step =
    | Produce(i: nat, result: Stats.Result) // worker i has a result and goes to send it
    | Send(i: nat)                          // into the buffer
    | HandOff(i: nat)                       // directly to the waiting consumer
    | Leave(i: nat)                         // worker i sees that its context is done
    | Fail(i: nat)                          // worker i gives up
    | Advance                               // the coordinating goroutine
    | Timer | Cancel                        // the deadline of the run or stage; a cancellation from outside
    | Receive | Tick | WarmupOver | Stop    // the consumer

  predicate IsIdle(s: State, i: nat) { i < |s.crew| && s.crew[i].status.Idle? }

  predicate IsHolding(s: State, i: nat) { i < |s.crew| && s.crew[i].status.Holding? }

  predicate ContextDone(s: State, i: nat)
    requires i < |s.crew|
  {
    s.cancelled || if s.crew[i].background then s.backgroundCancelled else s.stageOver
  }

  /** The wait group of the workers, or of the background workers, is at zero. */
  predicate AllGone(crew: seq<Worker>, background: bool) {
    forall i :: 0 <= i < |crew| && crew[i].background == background ==> crew[i].status.Gone?
  }

  predicate CanAdvance(s: State) {
    && s.rest != []
    && match s.rest[0]
       case WaitWorkers => AllGone(s.crew, false)
       case WaitBackground => AllGone(s.crew, true)
       case _ => true
  }

  predicate Enabled(setup: Setup, s: State, step: Step) {
    && !s.panicked
    && match step
       case Produce(i, _) => IsIdle(s, i)
       case Send(i) => IsHolding(s, i) && (s.channel.closed || |s.channel.buffer| < setup.capacity)
       case HandOff(i) => IsHolding(s, i) && !s.channel.closed && !s.channel.stopped && s.channel.buffer == []
       case Leave(i) => IsIdle(s, i) && ContextDone(s, i)
       case Fail(i) => IsIdle(s, i)
       case Advance => CanAdvance(s)
       case Timer => if setup.staged then !s.stageOver && s.rest != [] && s.rest[0].WaitWorkers? else !s.cancelled
       case Cancel => !s.cancelled
       case Receive => !s.channel.stopped && s.channel.buffer != []
       case Tick => !s.channel.stopped
       case WarmupOver => !s.channel.stopped
       case Stop => !s.channel.stopped && s.channel.closed && s.channel.buffer == []
  }

  function WithStatus(s: State, i: nat, status: Status): State
    requires i < |s.crew|
  {
    s.(crew := s.crew[i := s.crew[i].(status := status)])
  }

  function Hired(n: nat, background: bool): seq<Worker> {
    seq(n, _ => Worker(background, Idle))
  }

  /** What `break` leaves of the program. */
  function Skip(program: seq<Action>): (after: seq<Action>)
    ensures |after| <= |program|
  {
    if program == [] || program[0].CancelBackground? then program else Skip(program[1..])
  }

  function AdvanceState(s: State): State
    requires CanAdvance(s)
  {
    var s' := s.(rest := s.rest[1..]);
    match s.rest[0]
    case StartWorkers(n) => s'.(crew := s.crew + Hired(n, false), stageOver := false)
    case StartBackground(n) => s'.(crew := s.crew + Hired(n, true))
    case CheckCancelled => if s.cancelled then s'.(rest := Skip(s.rest[1..])) else s'
    case WaitWorkers => s'
    case CancelBackground => s'.(backgroundCancelled := true)
    case WaitBackground => s'
    case Close => s'.(channel := s.channel.(closed := true), panicked := s.panicked || s.channel.closed)
  }

  function Put(ch: Channel, item: Item): Channel {
    ch.(sent := ch.sent + [item], buffer := ch.buffer + [item])
  }

  function Pass(ch: Channel, item: Item): Channel {
    ch.(sent := ch.sent + [item], received := ch.received + [item], inputs := ch.inputs + [Stats.Got(item.result)])
  }

  function Take(ch: Channel): Channel
    requires ch.buffer != []
  {
    var item := ch.buffer[0];
    ch.(buffer := ch.buffer[1..], received := ch.received + [item], inputs := ch.inputs + [Stats.Got(item.result)])
  }

  function Log(ch: Channel, input: Stats.Input): Channel { ch.(inputs := ch.inputs + [input]) }

  function Apply(setup: Setup, s: State, step: Step): State
    requires Enabled(setup, s, step)
  {
    match step
    case Produce(i, r) => WithStatus(s, i, Holding(r)).(produced := s.produced + [Item(i, r)])
    case Send(i) =>
      if s.channel.closed then s.(panicked := true)
      else WithStatus(s, i, Idle).(channel := Put(s.channel, Item(i, s.crew[i].status.result)))
    case HandOff(i) => WithStatus(s, i, Idle).(channel := Pass(s.channel, Item(i, s.crew[i].status.result)))
    case Leave(i) => WithStatus(s, i, Gone)
    case Fail(i) => WithStatus(s, i, Gone)
    case Advance => AdvanceState(s)
    case Timer => if setup.staged then s.(stageOver := true) else s.(cancelled := true)
    case Cancel => s.(cancelled := true)
    case Receive => s.(channel := Take(s.channel))
    case Tick => s.(channel := Log(s.channel, Stats.Tick))
    case WarmupOver => s.(channel := Log(s.channel, Stats.WarmupOver))
    case Stop => s.(channel := s.channel.(stopped := true))
  }

  predicate Path(setup: Setup, s: State, steps: seq<Step>)
    decreases |steps|
  {
    steps == [] || (Enabled(setup, s, steps[0]) && Path(setup, Apply(setup, s, steps[0]), steps[1..]))
  }

  function After(setup: Setup, s: State, steps: seq<Step>): State
    requires Path(setup, s, steps)
    decreases |steps|
  {
    if steps == [] then s else After(setup, Apply(setup, s, steps[0]), steps[1..])
  }

  // ------------------------------------------------------- the program is sound

  /** Nobody is left when the channel is closed, and no wait is for workers that are never told to stop:
      `w`, `b` tell whether workers, background workers may be running, `c` whether the latter are told. */
  predicate Sound(program: seq<Action>, w: bool, b: bool, c: bool)
    decreases |program|
  {
    && program != []
    && var rest := program[1..];
       match program[0]
       case StartWorkers(_) => !w && Sound(rest, true, b, c)
       case StartBackground(_) => Sound(rest, w, true, c)
       case CheckCancelled => Sound(rest, w, b, c) && Sound(Skip(rest), w, b, c)
       case WaitWorkers => Sound(rest, false, b, c)
       case CancelBackground => Sound(rest, w, b, true)
       case WaitBackground => c && Sound(rest, w, false, c)
       case Close => rest == [] && !w && !b
  }

  lemma {:induction false} SoundWeaker(program: seq<Action>, w: bool, b: bool, c: bool, w': bool, b': bool, c': bool)
    requires Sound(program, w, b, c) && (w' ==> w) && (b' ==> b) && (c ==> c')
    ensures Sound(program, w', b', c')
    decreases |program|
  {
    var rest := program[1..];
    match program[0]
    case StartWorkers(_) => SoundWeaker(rest, true, b, c, true, b', c');
    case StartBackground(_) => SoundWeaker(rest, w, true, c, w', true, c');
    case CheckCancelled =>
      SoundWeaker(rest, w, b, c, w', b', c');
      SoundWeaker(Skip(rest), w, b, c, w', b', c');
    case WaitWorkers => SoundWeaker(rest, false, b, c, false, b', c');
    case CancelBackground => SoundWeaker(rest, w, b, true, w', b', true);
    case WaitBackground => SoundWeaker(rest, w, false, c, w', false, c');
    case Close =>
  }

  const Tail := [CancelBackground, WaitBackground, Close]

  lemma TailSound()
    ensures Sound(Tail, false, true, false)
  {
    assert Tail[1..] == [WaitBackground, Close] && [WaitBackground, Close][1..] == [Close];
    assert Sound([Close], false, false, true);
    assert Sound([WaitBackground, Close], false, true, true);
  }

  lemma StageSound(later: seq<Action>, n: nat)
    requires Skip(later) == Tail && Sound(later, false, true, false)
    ensures var program := [CheckCancelled, StartWorkers(n), WaitWorkers] + later;
      Skip(program) == Tail && Sound(program, false, true, false)
  {
    TailSound();
    var p2 := [WaitWorkers] + later;
    assert p2[1..] == later;
    assert Skip(p2) == Tail && Sound(p2, true, true, false);
    var p1 := [StartWorkers(n), WaitWorkers] + later;
    assert p1[1..] == p2;
    assert Skip(p1) == Tail && Sound(p1, false, true, false);
    var p0 := [CheckCancelled, StartWorkers(n), WaitWorkers] + later;
    assert p0[1..] == p1;
  }

  lemma {:induction false} StagesSound(workers: seq<int>)
    ensures Skip(Stages(workers) + Tail) == Tail
    ensures Sound(Stages(workers) + Tail, false, true, false)
  {
    if workers == [] {
      TailSound();
      assert Stages(workers) + Tail == Tail;
    } else {
      StagesSound(workers[1..]);
      var n := if workers[0] <= 0 then 1 else workers[0];
      var later := Stages(workers[1..]) + Tail;
      StageSound(later, n);
      assert Stages(workers) + Tail == [CheckCancelled, StartWorkers(n), WaitWorkers] + later;
    }
  }

  predicate SoundSetup(setup: Setup) { Sound(setup.program, false, false, !setup.staged) }

  /** Both ways to run close the channel only when every worker has been waited for. */
  lemma BothSound(stages: seq<int>, workers: nat, background: nat)
    ensures SoundSetup(RunStages(stages, background)) && SoundSetup(RunStage(workers, background))
  {
    StagesSound(stages);
    var p := RunStages(stages, background).program;
    assert p[1..] == Stages(stages) + Tail;
    var q := RunStage(workers, background).program;
    var q2 := [WaitWorkers, WaitBackground, Close];
    assert q[1..] == [StartBackground(background)] + q2 && q[1..][1..] == q2;
    assert q2[1..] == [WaitBackground, Close] && q2[1..][1..] == [Close];
    assert Sound([Close], false, false, true);
    assert Sound(q2[1..], false, true, true);
    assert Sound(q2, true, true, true);
    assert Sound(q[1..], true, false, true);
  }

  // ----------------------------------------------------------------- invariant

  function From(items: seq<Item>, i: nat): seq<Item> {
    if items == [] then []
    else (if items[0].worker == i then [items[0]] else []) + From(items[1..], i)
  }

  function Held(crew: seq<Worker>, i: nat): seq<Item> {
    if i < |crew| && crew[i].status.Holding? then [Item(i, crew[i].status.result)] else []
  }

  function Results(items: seq<Item>): seq<Stats.Result> {
    seq(|items|, k requires 0 <= k < |items| => items[k].result)
  }

  /** The results of every worker are sent in the order it produces them; it may be holding the last one. */
  ghost predicate InOrder(s: State) {
    forall i: nat {:trigger From(s.produced, i)} :: From(s.produced, i) == From(s.channel.sent, i) + Held(s.crew, i)
  }

  predicate Coordinated(setup: Setup, s: State) {
    if s.channel.closed then s.rest == [] && AllGone(s.crew, false) && AllGone(s.crew, true)
    else Sound(s.rest, !AllGone(s.crew, false), !AllGone(s.crew, true), s.backgroundCancelled || !setup.staged)
  }

  ghost predicate Accounted(capacity: nat, ch: Channel) {
    && |ch.buffer| <= capacity
    && ch.sent == ch.received + ch.buffer
    && Stats.Received(ch.inputs) == Results(ch.received)
    && (ch.stopped ==> ch.closed && ch.buffer == [])
  }

  ghost predicate Inv(setup: Setup, s: State) {
    !s.panicked && Coordinated(setup, s) && Accounted(setup.capacity, s.channel) && InOrder(s)
  }

  // ------------------------------------------------------------- helper lemmas

  lemma {:induction false} FromSnoc(items: seq<Item>, item: Item, i: nat)
    ensures From(items + [item], i) == if item.worker == i then From(items, i) + [item] else From(items, i)
  {
    if items == [] {
      assert [] + [item] == [item] + [];
      FromCons(item, [], i);
    } else {
      var first, rest := items[0], items[1..];
      FromSnoc(rest, item, i);
      assert items + [item] == [first] + (rest + [item]);
      FromCons(first, rest + [item], i);
      FromCons(first, rest, i);
      assert items == [first] + rest;
    }
  }

  lemma FromCons(first: Item, rest: seq<Item>, i: nat)
    ensures From([first] + rest, i) == (if first.worker == i then [first] else []) + From(rest, i)
  {
    assert ([first] + rest)[1..] == rest;
  }

  lemma ReceivedCons(first: Stats.Input, rest: seq<Stats.Input>)
    ensures Stats.Received([first] + rest) == (if first.Got? then [first.result] else []) + Stats.Received(rest)
  {
    assert ([first] + rest)[1..] == rest;
  }

  lemma {:induction false} ReceivedSnoc(inputs: seq<Stats.Input>, input: Stats.Input)
    ensures Stats.Received(inputs + [input]) == Stats.Received(inputs) + (if input.Got? then [input.result] else [])
  {
    if inputs == [] {
      assert [] + [input] == [input] + [];
      ReceivedCons(input, []);
    } else {
      var first, rest := inputs[0], inputs[1..];
      ReceivedSnoc(rest, input);
      assert inputs + [input] == [first] + (rest + [input]) && inputs == [first] + rest;
      ReceivedCons(first, rest + [input]);
      ReceivedCons(first, rest);
    }
  }

  /** The consumer takes one more item. */
  lemma Consumed(inputs: seq<Stats.Input>, received: seq<Item>, item: Item)
    requires Stats.Received(inputs) == Results(received)
    ensures Stats.Received(inputs + [Stats.Got(item.result)]) == Results(received + [item])
  {
    ReceivedSnoc(inputs, Stats.Got(item.result));
  }

  lemma HeldUpdate(crew: seq<Worker>, j: nat, worker: Worker, i: nat)
    requires j < |crew|
    ensures Held(crew[j := worker], i) ==
            if i != j then Held(crew, i) else if worker.status.Holding? then [Item(j, worker.status.result)] else []
  {}

  lemma HeldHired(crew: seq<Worker>, n: nat, background: bool, i: nat)
    ensures Held(crew + Hired(n, background), i) == Held(crew, i)
  {}

  // ---------------------------------------------------------- steps keep it all

  lemma OrderProduced(s: State, j: nat, r: Stats.Result)
    requires InOrder(s) && IsIdle(s, j)
    ensures InOrder(WithStatus(s, j, Holding(r)).(produced := s.produced + [Item(j, r)]))
  {
    forall i: nat
      ensures From(s.produced + [Item(j, r)], i) == From(s.channel.sent, i) + Held(WithStatus(s, j, Holding(r)).crew, i)
    {
      assert From(s.produced, i) == From(s.channel.sent, i) + Held(s.crew, i);
      FromSnoc(s.produced, Item(j, r), i);
      HeldUpdate(s.crew, j, s.crew[j].(status := Holding(r)), i);
    }
  }

  lemma OrderSent(s: State, j: nat)
    requires InOrder(s) && IsHolding(s, j)
    ensures InOrder(WithStatus(s, j, Idle).(channel := Put(s.channel, Item(j, s.crew[j].status.result))))
  {
    var item := Item(j, s.crew[j].status.result);
    forall i: nat
      ensures From(s.produced, i) == From(s.channel.sent + [item], i) + Held(WithStatus(s, j, Idle).crew, i)
    {
      assert From(s.produced, i) == From(s.channel.sent, i) + Held(s.crew, i);
      FromSnoc(s.channel.sent, item, i);
      HeldUpdate(s.crew, j, s.crew[j].(status := Idle), i);
    }
  }

  lemma OrderGone(s: State, j: nat)
    requires InOrder(s) && IsIdle(s, j)
    ensures InOrder(WithStatus(s, j, Gone))
  {
    forall i: nat
      ensures From(s.produced, i) == From(s.channel.sent, i) + Held(WithStatus(s, j, Gone).crew, i)
    {
      assert From(s.produced, i) == From(s.channel.sent, i) + Held(s.crew, i);
      HeldUpdate(s.crew, j, s.crew[j].(status := Gone), i);
    }
  }

  lemma OrderAdvanced(s: State)
    requires InOrder(s) && CanAdvance(s)
    ensures InOrder(AdvanceState(s))
  {
    forall i: nat
      ensures From(s.produced, i) == From(s.channel.sent, i) + Held(AdvanceState(s).crew, i)
    {
      assert From(s.produced, i) == From(s.channel.sent, i) + Held(s.crew, i);
      match s.rest[0]
      case StartWorkers(n) => HeldHired(s.crew, n, false, i);
      case StartBackground(n) => HeldHired(s.crew, n, true, i);
      case _ =>
    }
  }

  lemma OrderKept(setup: Setup, s: State, step: Step)
    requires Enabled(setup, s, step) && InOrder(s)
    ensures InOrder(Apply(setup, s, step))
  {
    match step
    case Produce(j, r) => OrderProduced(s, j, r);
    case Send(j) => OrderSent(s, j);
    case HandOff(j) => OrderSent(s, j);
    case Leave(j) => OrderGone(s, j);
    case Fail(j) => OrderGone(s, j);
    case Advance => OrderAdvanced(s);
    case _ =>
  }

  lemma AccountedPut(capacity: nat, ch: Channel, item: Item)
    requires Accounted(capacity, ch) && |ch.buffer| < capacity && !ch.closed
    ensures Accounted(capacity, Put(ch, item))
  {
    assert ch.received + ch.buffer + [item] == ch.received + (ch.buffer + [item]);
  }

  lemma AccountedPass(capacity: nat, ch: Channel, item: Item)
    requires Accounted(capacity, ch) && ch.buffer == [] && !ch.stopped
    ensures Accounted(capacity, Pass(ch, item))
  {
    Consumed(ch.inputs, ch.received, item);
    assert ch.received + [] == ch.received && ch.received + [item] + [] == ch.received + [item];
  }

  lemma AccountedTake(capacity: nat, ch: Channel)
    requires Accounted(capacity, ch) && ch.buffer != []
    ensures Accounted(capacity, Take(ch))
  {
    Consumed(ch.inputs, ch.received, ch.buffer[0]);
    assert ch.received + ch.buffer == ch.received + [ch.buffer[0]] + ch.buffer[1..];
  }

  lemma AccountedLog(capacity: nat, ch: Channel, input: Stats.Input)
    requires Accounted(capacity, ch) && !input.Got?
    ensures Accounted(capacity, Log(ch, input))
  {
    ReceivedSnoc(ch.inputs, input);
  }

  lemma AccountedKept(setup: Setup, s: State, step: Step)
    requires Enabled(setup, s, step) && Accounted(setup.capacity, s.channel)
    ensures Accounted(setup.capacity, Apply(setup, s, step).channel)
  {
    match step
    case Send(j) =>
      if !s.channel.closed {
        AccountedPut(setup.capacity, s.channel, Item(j, s.crew[j].status.result));
      }
    case HandOff(j) => AccountedPass(setup.capacity, s.channel, Item(j, s.crew[j].status.result));
    case Receive => AccountedTake(setup.capacity, s.channel);
    case Tick => AccountedLog(setup.capacity, s.channel, Stats.Tick);
    case WarmupOver => AccountedLog(setup.capacity, s.channel, Stats.WarmupOver);
    case _ =>
  }

  /** Workers only leave, unless the coordinating goroutine starts some. */
  lemma AdvanceCoordinated(setup: Setup, s: State)
    requires CanAdvance(s) && !s.channel.closed && !s.panicked && Coordinated(setup, s)
    ensures Coordinated(setup, AdvanceState(s)) && !AdvanceState(s).panicked
  {
    var s' := AdvanceState(s);
    var c := s.backgroundCancelled || !setup.staged;
    var c' := s'.backgroundCancelled || !setup.staged;
    var w, b := !AllGone(s.crew, false), !AllGone(s.crew, true);
    var w', b' := !AllGone(s'.crew, false), !AllGone(s'.crew, true);
    match s.rest[0]
    case StartWorkers(n) =>
      HiredGone(s.crew, n, false);
      SoundWeaker(s'.rest, true, b, c, w', b', c');
    case StartBackground(n) =>
      HiredGone(s.crew, n, true);
      SoundWeaker(s'.rest, w, true, c, w', b', c');
    case CheckCancelled =>
    case WaitWorkers => SoundWeaker(s'.rest, false, b, c, w', b', c');
    case CancelBackground => SoundWeaker(s'.rest, w, b, true, w', b', c');
    case WaitBackground => SoundWeaker(s'.rest, w, false, c, w', b', c');
    case Close =>
  }

  lemma HiredGone(crew: seq<Worker>, n: nat, background: bool)
    ensures AllGone(crew + Hired(n, background), !background) == AllGone(crew, !background)
  {
    var more := crew + Hired(n, background);
    assert forall i :: 0 <= i < |crew| ==> more[i] == crew[i];
  }

  lemma UpdateGone(crew: seq<Worker>, i: nat, status: Status, background: bool)
    requires i < |crew| && !crew[i].status.Gone?
    ensures AllGone(crew, background) ==> AllGone(crew[i := crew[i].(status := status)], background)
  {}

  lemma CoordinationKept(setup: Setup, s: State, step: Step)
    requires Enabled(setup, s, step) && Coordinated(setup, s)
    ensures Coordinated(setup, Apply(setup, s, step)) && !Apply(setup, s, step).panicked
  {
    var s' := Apply(setup, s, step);
    if step.Advance? {
      AdvanceCoordinated(setup, s);
    } else if !s.channel.closed {
      var c := s.backgroundCancelled || !setup.staged;
      var w, b := !AllGone(s.crew, false), !AllGone(s.crew, true);
      CrewKept(setup, s, step, false);
      CrewKept(setup, s, step, true);
      SoundWeaker(s.rest, w, b, c, !AllGone(s'.crew, false), !AllGone(s'.crew, true), c);
    }
  }

  lemma CrewKept(setup: Setup, s: State, step: Step, background: bool)
    requires Enabled(setup, s, step) && !step.Advance? && !s.channel.closed
    ensures AllGone(s.crew, background) ==> AllGone(Apply(setup, s, step).crew, background)
  {
    match step
    case Produce(i, r) => UpdateGone(s.crew, i, Holding(r), background);
    case Send(i) => UpdateGone(s.crew, i, Idle, background);
    case HandOff(i) => UpdateGone(s.crew, i, Idle, background);
    case Leave(i) => UpdateGone(s.crew, i, Gone, background);
    case Fail(i) => UpdateGone(s.crew, i, Gone, background);
    case _ =>
  }

  lemma Kept(setup: Setup, s: State, step: Step)
    requires Enabled(setup, s, step) && Inv(setup, s)
    ensures Inv(setup, Apply(setup, s, step))
  {
    OrderKept(setup, s, step);
    AccountedKept(setup, s, step);
    CoordinationKept(setup, s, step);
  }

  lemma {:induction false} KeptAlong(setup: Setup, s: State, steps: seq<Step>)
    requires Inv(setup, s) && Path(setup, s, steps)
    ensures Inv(setup, After(setup, s, steps))
    decreases |steps|
  {
    if steps != [] {
      Kept(setup, s, steps[0]);
      KeptAlong(setup, Apply(setup, s, steps[0]), steps[1..]);
    }
  }

  // -------------------------------------------------------------------- safety

  /** In every interleaving: no send and no close after the close, at most `capacity` results in the
      buffer, and what was sent is what was received followed by the buffer. */
  lemma Safe(setup: Setup, steps: seq<Step>)
    requires SoundSetup(setup) && Path(setup, Initial(setup), steps)
    ensures var s := After(setup, Initial(setup), steps);
      && !s.panicked
      && (s.channel.closed ==> forall i: nat | i < |s.crew| :: s.crew[i].status.Gone?)
      && |s.channel.buffer| <= setup.capacity
      && s.channel.sent == s.channel.received + s.channel.buffer
      && Inv(setup, s)
  {
    assert Inv(setup, Initial(setup));
    KeptAlong(setup, Initial(setup), steps);
  }

  lemma {:induction false} CountFrom(items: seq<Item>, x: Item)
    ensures multiset(items)[x] == multiset(From(items, x.worker))[x]
  {
    if items != [] {
      CountFrom(items[1..], x);
      assert items == [items[0]] + items[1..];
    }
  }

  lemma SameItems(a: seq<Item>, b: seq<Item>)
    requires forall i: nat {:trigger From(a, i)} :: From(a, i) == From(b, i)
    ensures multiset(a) == multiset(b)
  {
    forall x: Item
      ensures multiset(a)[x] == multiset(b)[x]
    {
      CountFrom(a, x);
      CountFrom(b, x);
      assert From(a, x.worker) == From(b, x.worker);
    }
  }

  /** When the consumer stops it has received every result any worker has produced, each once and those of
      one worker in its order; its statistics are those of a suffix of them, of all without a warmup. */
  lemma NothingDropped(setup: Setup, steps: seq<Step>, warmup: bool, stats: map<string, Stats.QueryStats>)
    requires SoundSetup(setup) && Path(setup, Initial(setup), steps)
    requires After(setup, Initial(setup), steps).channel.stopped
    requires Stats.Tells(stats, Stats.Collected(After(setup, Initial(setup), steps).channel.inputs, warmup))
    ensures var s := After(setup, Initial(setup), steps);
      && multiset(s.channel.received) == multiset(s.produced)
      && (forall i: nat :: From(s.channel.received, i) == From(s.produced, i))
      && exists skipped: nat :: skipped <= |s.channel.received| && (!warmup ==> skipped == 0)
                                && Stats.Tells(stats, Results(s.channel.received)[skipped..])
  {
    Safe(setup, steps);
    var s := After(setup, Initial(setup), steps);
    forall i: nat
      ensures From(s.channel.received, i) == From(s.produced, i)
    {
      assert From(s.produced, i) == From(s.channel.sent, i) + Held(s.crew, i);
      assert Held(s.crew, i) == [] && s.channel.sent == s.channel.received;
    }
    SameItems(s.channel.received, s.produced);
    Stats.CollectedSuffix(s.channel.inputs, warmup);
    var skipped := |s.channel.received| - |Stats.Collected(s.channel.inputs, warmup)|;
    assert Results(s.channel.received)[skipped..] == Stats.Collected(s.channel.inputs, warmup);
  }

  // ------------------------------------------------------- every stage is run

  /** The workers, or the background workers, there are. */
  function Staff(crew: seq<Worker>, background: bool): nat {
    if crew == [] then 0 else (if crew[0].background == background then 1 else 0) + Staff(crew[1..], background)
  }

  /** Those that a program is to start. */
  function Hires(program: seq<Action>, background: bool): nat {
    if program == [] then 0 else Hire(program[0], background) + Hires(program[1..], background)
  }

  function Hire(action: Action, background: bool): nat {
    match action
    case StartWorkers(n) => if background then 0 else n
    case StartBackground(n) => if background then n else 0
    case _ => 0
  }

  lemma HiresCons(action: Action, rest: seq<Action>, background: bool)
    ensures Hires([action] + rest, background) == Hire(action, background) + Hires(rest, background)
  {
    assert ([action] + rest)[1..] == rest;
  }

  /** The workers of all stages: at least one each. */
  function StageWorkers(stages: seq<int>): nat {
    if stages == [] then 0 else (if stages[0] > 1 then stages[0] else 1) + StageWorkers(stages[1..])
  }

  lemma {:induction false} StaffConcat(a: seq<Worker>, b: seq<Worker>, background: bool)
    ensures Staff(a + b, background) == Staff(a, background) + Staff(b, background)
  {
    if a == [] {
      assert a + b == b;
    } else {
      assert (a + b)[1..] == a[1..] + b;
      StaffConcat(a[1..], b, background);
    }
  }

  lemma {:induction false} StaffHired(n: nat, hired: bool, background: bool)
    ensures Staff(Hired(n, hired), background) == if hired == background then n else 0
  {
    if n > 0 {
      assert Hired(n, hired)[1..] == Hired(n - 1, hired);
      StaffHired(n - 1, hired, background);
    }
  }

  lemma {:induction false} StaffStays(crew: seq<Worker>, i: nat, status: Status, background: bool)
    requires i < |crew|
    ensures Staff(crew[i := crew[i].(status := status)], background) == Staff(crew, background)
  {
    var crew' := crew[i := crew[i].(status := status)];
    if i > 0 {
      assert crew'[1..] == crew[1..][i - 1 := crew[1..][i - 1].(status := status)];
      StaffStays(crew[1..], i - 1, status, background);
    } else {
      assert crew'[1..] == crew[1..];
    }
  }

  /** Unless stages are skipped, who is there and who is still to be started are all that the program starts. */
  ghost predicate Manned(setup: Setup, s: State) {
    && (!setup.staged ==> CheckCancelled !in s.rest)
    && (!(setup.staged && s.cancelled) ==>
          forall background :: Staff(s.crew, background) + Hires(s.rest, background) == Hires(setup.program, background))
  }

  lemma AdvanceStaff(s: State, background: bool)
    requires CanAdvance(s) && !(s.cancelled && s.rest[0].CheckCancelled?)
    ensures Staff(AdvanceState(s).crew, background) + Hires(AdvanceState(s).rest, background)
         == Staff(s.crew, background) + Hires(s.rest, background)
  {
    match s.rest[0]
    case StartWorkers(n) =>
      StaffConcat(s.crew, Hired(n, false), background);
      StaffHired(n, false, background);
    case StartBackground(n) =>
      StaffConcat(s.crew, Hired(n, true), background);
      StaffHired(n, true, background);
    case _ =>
  }

  lemma AdvanceManned(setup: Setup, s: State)
    requires CanAdvance(s) && Manned(setup, s)
    ensures Manned(setup, AdvanceState(s))
  {
    assert s.rest[0] in s.rest;
    if !(setup.staged && s.cancelled) {
      forall background
        ensures Staff(AdvanceState(s).crew, background) + Hires(AdvanceState(s).rest, background)
             == Hires(setup.program, background)
      {
        AdvanceStaff(s, background);
      }
    }
  }

  lemma MannedKept(setup: Setup, s: State, step: Step)
    requires Enabled(setup, s, step) && Manned(setup, s)
    ensures Manned(setup, Apply(setup, s, step))
  {
    if step.Advance? {
      AdvanceManned(setup, s);
    } else {
      forall background
        ensures Staff(Apply(setup, s, step).crew, background) == Staff(s.crew, background)
      {
        match step
        case Produce(i, r) => StaffStays(s.crew, i, Holding(r), background);
        case Send(i) => StaffStays(s.crew, i, Idle, background);
        case HandOff(i) => StaffStays(s.crew, i, Idle, background);
        case Leave(i) => StaffStays(s.crew, i, Gone, background);
        case Fail(i) => StaffStays(s.crew, i, Gone, background);
        case _ =>
      }
    }
  }

  lemma {:induction false} MannedAlong(setup: Setup, s: State, steps: seq<Step>)
    requires Path(setup, s, steps) && Manned(setup, s)
    ensures Manned(setup, After(setup, s, steps))
    decreases |steps|
  {
    if steps != [] {
      MannedKept(setup, s, steps[0]);
      MannedAlong(setup, Apply(setup, s, steps[0]), steps[1..]);
    }
  }

  lemma {:induction false} HiresConcat(a: seq<Action>, b: seq<Action>, background: bool)
    ensures Hires(a + b, background) == Hires(a, background) + Hires(b, background)
  {
    if a == [] {
      assert a + b == b;
    } else {
      assert (a + b)[1..] == a[1..] + b;
      HiresConcat(a[1..], b, background);
    }
  }

  lemma StageHires(n: nat, rest: seq<Action>, background: bool)
    ensures Hires([CheckCancelled, StartWorkers(n), WaitWorkers] + rest, background)
         == (if background then 0 else n) + Hires(rest, background)
  {
    assert [CheckCancelled, StartWorkers(n), WaitWorkers] + rest
        == [CheckCancelled] + ([StartWorkers(n)] + ([WaitWorkers] + rest));
    HiresCons(WaitWorkers, rest, background);
    HiresCons(StartWorkers(n), [WaitWorkers] + rest, background);
    HiresCons(CheckCancelled, [StartWorkers(n)] + ([WaitWorkers] + rest), background);
  }

  lemma {:induction false} StagesHire(stages: seq<int>, background: bool)
    ensures Hires(Stages(stages), background) == if background then 0 else StageWorkers(stages)
  {
    if stages != [] {
      StagesHire(stages[1..], background);
      StageHires(if stages[0] <= 0 then 1 else stages[0], Stages(stages[1..]), background);
    }
  }

  lemma TailHires(background: bool)
    ensures Hires(Tail, background) == 0
  {
    assert Tail == [CancelBackground] + ([WaitBackground] + ([Close] + []));
    HiresCons(Close, [], background);
    HiresCons(WaitBackground, [Close] + [], background);
    HiresCons(CancelBackground, [WaitBackground] + ([Close] + []), background);
  }

  lemma RunStagesHires(stages: seq<int>, background: nat, b: bool)
    ensures Hires(RunStages(stages, background).program, b) == if b then background else StageWorkers(stages)
  {
    HiresCons(StartBackground(background), Stages(stages) + Tail, b);
    HiresConcat(Stages(stages), Tail, b);
    StagesHire(stages, b);
    TailHires(b);
  }

  lemma RunStageHires(workers: nat, background: nat, b: bool)
    ensures Hires(RunStage(workers, background).program, b) == if b then background else workers
  {
    var p1 := [WaitWorkers] + ([WaitBackground] + ([Close] + []));
    assert RunStage(workers, background).program == [StartWorkers(workers)] + ([StartBackground(background)] + p1);
    HiresCons(Close, [], b);
    HiresCons(WaitBackground, [Close] + [], b);
    HiresCons(WaitWorkers, [WaitBackground] + ([Close] + []), b);
    HiresCons(StartBackground(background), p1, b);
    HiresCons(StartWorkers(workers), [StartBackground(background)] + p1, b);
  }

  /**
   A run in stages that is not cancelled has started, when the channel is closed,
   the workers of every stage, at least one each, and the background workers.
   */
  lemma AllStagesRun(stages: seq<int>, background: nat, steps: seq<Step>)
    requires Path(RunStages(stages, background), Initial(RunStages(stages, background)), steps)
    ensures var s := After(RunStages(stages, background), Initial(RunStages(stages, background)), steps);
      s.channel.closed && !s.cancelled ==> Staff(s.crew, false) == StageWorkers(stages) && Staff(s.crew, true) == background
  {
    var setup := RunStages(stages, background);
    BothSound(stages, 0, background);
    Safe(setup, steps);
    MannedAlong(setup, Initial(setup), steps);
    RunStagesHires(stages, background, false);
    RunStagesHires(stages, background, true);
  }

  /** And a run of one stage, cancelled or not, the workers asked for. */
  lemma AllWorkersRun(workers: nat, background: nat, steps: seq<Step>)
    requires Path(RunStage(workers, background), Initial(RunStage(workers, background)), steps)
    ensures var s := After(RunStage(workers, background), Initial(RunStage(workers, background)), steps);
      s.channel.closed ==> Staff(s.crew, false) == workers && Staff(s.crew, true) == background
  {
    var setup := RunStage(workers, background);
    BothSound([], workers, background);
    Safe(setup, steps);
    MannedAlong(setup, Initial(setup), steps);
    RunStageHires(workers, background, false);
    RunStageHires(workers, background, true);
  }

  // ------------------------------------------------------------------ progress

  /** The steps other than producing a further result and the consumer's clock. */
  predicate Draining(step: Step) { !step.Produce? && !step.Tick? && !step.WarmupOver? }

  /** Nothing deadlocks: until the consumer has stopped, something other than more work can happen. */
  lemma Unstuck(setup: Setup, s: State) returns (step: Step)
    requires Inv(setup, s) && !s.channel.stopped
    ensures Draining(step) && Enabled(setup, s, step)
  {
    if s.channel.buffer != [] {
      return Receive;
    }
    if s.channel.closed {
      return Stop;
    }
    if i: nat :| IsHolding(s, i) {
      return HandOff(i);
    }
    if CanAdvance(s) {
      return Advance;
    }
    var background := s.rest[0].WaitBackground?;
    var i :| 0 <= i < |s.crew| && s.crew[i].background == background && !s.crew[i].status.Gone?;
    assert !IsHolding(s, i) && IsIdle(s, i);
    step := if ContextDone(s, i) then Leave(i) else Timer;
  }

  function Weight(program: seq<Action>): nat {
    if program == [] then 0
    else (match program[0] case StartWorkers(n) => 2 + n case StartBackground(n) => 1 + n case _ => 1)
         + Weight(program[1..])
  }

  function Load(worker: Worker): nat {
    match worker.status case Idle => 1 case Holding(_) => 3 case Gone => 0
  }

  function Loads(crew: seq<Worker>): nat {
    if crew == [] then 0 else Load(crew[0]) + Loads(crew[1..])
  }

  function Bit(b: bool): nat { if b then 1 else 0 }

  /** A bound on the steps left once nothing more is produced. */
  function StepsLeft(s: State): nat {
    Weight(s.rest) + Loads(s.crew) + |s.channel.buffer| + Bit(!s.cancelled) + Bit(!s.stageOver) + Bit(!s.channel.stopped)
  }

  lemma {:induction false} LoadsUpdate(crew: seq<Worker>, i: nat, worker: Worker)
    requires i < |crew|
    ensures Loads(crew[i := worker]) == Loads(crew) - Load(crew[i]) + Load(worker)
  {
    if i == 0 {
      assert crew[i := worker][1..] == crew[1..];
    } else {
      assert crew[i := worker][1..] == crew[1..][i - 1 := worker];
      LoadsUpdate(crew[1..], i - 1, worker);
    }
  }

  lemma {:induction false} LoadsHired(crew: seq<Worker>, n: nat, background: bool)
    ensures Loads(crew + Hired(n, background)) == Loads(crew) + n
    decreases |crew| + n
  {
    if crew != [] {
      assert (crew + Hired(n, background))[1..] == crew[1..] + Hired(n, background);
      LoadsHired(crew[1..], n, background);
    } else if n > 0 {
      assert [] + Hired(n, background) == Hired(n, background);
      assert Hired(n, background)[1..] == [] + Hired(n - 1, background);
      LoadsHired([], n - 1, background);
    }
  }

  lemma {:induction false} SkipLighter(program: seq<Action>)
    ensures Weight(Skip(program)) <= Weight(program)
  {
    if program != [] && !program[0].CancelBackground? {
      SkipLighter(program[1..]);
    }
  }

  lemma FewerActions(s: State)
    requires CanAdvance(s)
    ensures var s' := AdvanceState(s);
      Weight(s'.rest) + Loads(s'.crew) + Bit(!s'.stageOver) < Weight(s.rest) + Loads(s.crew) + Bit(!s.stageOver)
  {
    match s.rest[0]
    case StartWorkers(n) => LoadsHired(s.crew, n, false);
    case StartBackground(n) => LoadsHired(s.crew, n, true);
    case CheckCancelled => SkipLighter(s.rest[1..]);
    case _ =>
  }

  lemma StatusLoad(s: State, i: nat, status: Status)
    requires i < |s.crew|
    ensures StepsLeft(WithStatus(s, i, status)) == StepsLeft(s) - Load(s.crew[i]) + Load(Worker(false, status))
  {
    LoadsUpdate(s.crew, i, s.crew[i].(status := status));
  }

  lemma WorkerFewer(setup: Setup, s: State, step: Step)
    requires Enabled(setup, s, step) && !Apply(setup, s, step).panicked
    requires step.Send? || step.HandOff? || step.Leave? || step.Fail?
    ensures StepsLeft(Apply(setup, s, step)) < StepsLeft(s)
  {
    match step
    case Send(i) => StatusLoad(s, i, Idle);
    case HandOff(i) => StatusLoad(s, i, Idle);
    case Leave(i) => StatusLoad(s, i, Gone);
    case Fail(i) => StatusLoad(s, i, Gone);
  }

  lemma AdvanceFewer(s: State)
    requires CanAdvance(s)
    ensures StepsLeft(AdvanceState(s)) < StepsLeft(s)
  {
    FewerActions(s);
  }

  lemma FewerLeft(setup: Setup, s: State, step: Step)
    requires Enabled(setup, s, step) && Draining(step) && !Apply(setup, s, step).panicked
    ensures StepsLeft(Apply(setup, s, step)) < StepsLeft(s)
  {
    if step.Send? || step.HandOff? || step.Leave? || step.Fail? {
      WorkerFewer(setup, s, step);
    } else if step.Advance? {
      AdvanceFewer(s);
    }
  }

  /** Once nothing more is produced, no schedule goes on for longer than `StepsLeft`. */
  lemma {:induction false} DrainBounded(setup: Setup, s: State, steps: seq<Step>)
    requires Inv(setup, s) && Path(setup, s, steps) && forall step | step in steps :: Draining(step)
    ensures |steps| <= StepsLeft(s)
    decreases |steps|
  {
    if steps != [] {
      assert Draining(steps[0]);
      Kept(setup, s, steps[0]);
      FewerLeft(setup, s, steps[0]);
      DrainBounded(setup, Apply(setup, s, steps[0]), steps[1..]);
    }
  }

  /** From every reachable state the run can end without any further result. */
  lemma {:induction false} CanStop(setup: Setup, s: State) returns (steps: seq<Step>)
    requires Inv(setup, s)
    ensures Path(setup, s, steps) && After(setup, s, steps).channel.stopped
    ensures forall step | step in steps :: Draining(step)
    decreases StepsLeft(s)
  {
    steps := [];
    if !s.channel.stopped {
      var step := Unstuck(setup, s);
      Kept(setup, s, step);
      FewerLeft(setup, s, step);
      var later := CanStop(setup, Apply(setup, s, step));
      steps := [step] + later;
      assert steps[1..] == later;
    }
  }
}
