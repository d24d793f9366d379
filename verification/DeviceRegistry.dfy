/** The registry of devices of the tuning tool: a list shared with the grapher, a map of Talons
    and a map of digital pins, over an explicit heap of live objects. */
module DeviceRegistry {
  type Ptr = nat

  const NULL: Ptr := 0

  datatype Object = TalonObject(id: int) | InputObject(pin: int) | OutputObject(pin: int)

  datatype DeviceType = Talon | DIO | RoboRIO

  datatype Bundle = Bundle(kind: DeviceType, id: int, pointer: Ptr)

  /** A digital pin: input and output share one pointer, as members of a union. */
  datatype DigitalBoth = DigitalBoth(isInput: bool, pointer: Ptr)

  const EMPTY_PIN := DigitalBoth(false, NULL)

  /** Identifiers are stored in the list as unsigned bytes. */
  function Byte(id: int): int {
    id % 256
  }

  datatype State = State(devices: seq<Bundle>, talons: map<int, Ptr>, pins: map<int, DigitalBoth>, heap: map<Ptr, Object>)

  const START := State([], map[], map[], map[])

  // ------------------------------------------------------------------ what must agree

  predicate Matches(b: Bundle, kind: DeviceType, id: int) {
    b.kind == kind && b.id == id
  }

  /** The list holds one entry for each input pin, with its pointer, and no other pin entry. */
  ghost predicate PinsListed(s: State) {
    && (forall i | 0 <= i < |s.devices| && s.devices[i].kind == DIO ::
          && s.devices[i].id in s.pins
          && s.pins[s.devices[i].id] == DigitalBoth(true, s.devices[i].pointer))
    && (forall i, j | 0 <= i < j < |s.devices| :: s.devices[i].kind == s.devices[j].kind == DIO ==> s.devices[i].id != s.devices[j].id)
    && (forall pin | pin in s.pins && s.pins[pin].isInput :: Bundle(DIO, pin, s.pins[pin].pointer) in s.devices)
  }

  /** The list holds one entry for each Talon, filed under its low byte, and no other Talon entry. */
  ghost predicate TalonsListed(s: State) {
    && (forall i | 0 <= i < |s.devices| && s.devices[i].kind == Talon ::
          && s.devices[i].pointer in s.heap
          && s.heap[s.devices[i].pointer].TalonObject?
          && s.devices[i].id == Byte(s.heap[s.devices[i].pointer].id))
    && (forall i, j | 0 <= i < j < |s.devices| :: s.devices[i].kind == s.devices[j].kind == Talon ==> s.devices[i].pointer != s.devices[j].pointer)
    && (forall id | id in s.talons :: Bundle(Talon, Byte(id), s.talons[id]) in s.devices)
  }

  /** Every pointer kept in a map is to a live object of its own kind: nothing dangles. */
  ghost predicate NothingDangles(s: State) {
    && NULL !in s.heap
    && (forall id | id in s.talons :: s.talons[id] in s.heap && s.heap[s.talons[id]] == TalonObject(id))
    && (forall pin | pin in s.pins ::
          && (s.pins[pin].isInput ==> s.pins[pin].pointer in s.heap && s.heap[s.pins[pin].pointer] == InputObject(pin))
          && (!s.pins[pin].isInput && s.pins[pin].pointer != NULL ==>
                s.pins[pin].pointer in s.heap && s.heap[s.pins[pin].pointer] == OutputObject(pin)))
  }

  /** Every live object is kept by the entry it belongs to: nothing leaks. */
  ghost predicate NothingLeaks(s: State) {
    forall p | p in s.heap ::
      match s.heap[p]
      case TalonObject(id) => id in s.talons && s.talons[id] == p
      case InputObject(pin) => pin in s.pins && s.pins[pin] == DigitalBoth(true, p)
      case OutputObject(pin) => pin in s.pins && s.pins[pin] == DigitalBoth(false, p)
  }

  ghost predicate Agrees(s: State) {
    && PinsListed(s) && TalonsListed(s) && NothingDangles(s) && NothingLeaks(s)
    && forall pin | pin in s.pins :: 0 <= pin < 256
  }

  // ------------------------------------------------------------------ the operations on values

  /** The index of the first entry of that kind and identifier, or -1. */
  function IndexOf(devices: seq<Bundle>, kind: DeviceType, id: int): (r: int)
    ensures -1 <= r < |devices|
    ensures r >= 0 ==> Matches(devices[r], kind, id) && forall i | 0 <= i < r :: !Matches(devices[i], kind, id)
    ensures r == -1 <==> forall i | 0 <= i < |devices| :: !Matches(devices[i], kind, id)
  {
    if devices == [] then -1
    else
      var r := IndexOf(devices[..|devices| - 1], kind, id);
      if r >= 0 then r
      else if Matches(devices[|devices| - 1], kind, id) then |devices| - 1
      else -1
  }

  function TalonOf(s: State, id: int): Ptr {
    if id in s.talons then s.talons[id] else NULL
  }

  function PinOf(s: State, id: int): DigitalBoth {
    if id in s.pins then s.pins[id] else EMPTY_PIN
  }

  /** `address` is where the allocator places an object, if one is created. */
  function TalonStep(s: State, id: int, address: Ptr): State {
    if TalonOf(s, id) != NULL then s
    else s.(talons := s.talons[id := address],
            heap := s.heap[address := TalonObject(id)],
            devices := s.devices + [Bundle(Talon, Byte(id), address)])
  }

  function InputStep(s: State, id: int, address: Ptr): State {
    var pin := PinOf(s, id);
    if pin.isInput then s
    else s.(pins := s.pins[id := DigitalBoth(true, address)],
            heap := (s.heap - {pin.pointer})[address := InputObject(id)],
            devices := s.devices + [Bundle(DIO, Byte(id), address)])
  }

  function Erased<T>(xs: seq<T>, i: int): seq<T>
    requires 0 <= i < |xs|
  {
    xs[..i] + xs[i + 1..]
  }

  /** Total, so that a run assumes nothing about the index: -1 erases nothing here, where the tool
      would erase before the start of the list. `RunAgrees` proves that no run does so. */
  function ErasedAt(devices: seq<Bundle>, index: int): seq<Bundle> {
    if 0 <= index < |devices| then Erased(devices, index) else devices
  }

  function OutputStep(s: State, id: int, address: Ptr): State {
    var pin := PinOf(s, id);
    if pin.isInput then
      s.(pins := s.pins[id := DigitalBoth(false, address)],
         heap := (s.heap - {pin.pointer})[address := OutputObject(id)],
         devices := ErasedAt(s.devices, IndexOf(s.devices, DIO, id)))
    else if pin.pointer == NULL then
      s.(pins := s.pins[id := DigitalBoth(false, address)],
         heap := s.heap[address := OutputObject(id)])
    else s
  }

  // ------------------------------------------------------------------ agreement is kept

  /** An address the allocator may return. A pin operation deletes the old object first, so the
      new one may land on the very address just freed. */
  ghost predicate Allocatable(heap: map<Ptr, Object>, address: Ptr) {
    address != NULL && address !in heap
  }

  function HeapWithout(s: State, pin: int): map<Ptr, Object> {
    s.heap - {PinOf(s, pin).pointer}
  }

  /** Appending an entry keeps the earlier ones at their places. */
  lemma Appended(devices: seq<Bundle>, entry: Bundle)
    ensures forall b | b in devices :: b in devices + [entry]
    ensures entry in devices + [entry]
  {
    assert (devices + [entry])[|devices|] == entry;
  }

  lemma TalonKeepsAgreement(s: State, id: int, address: Ptr)
    requires Agrees(s) && Allocatable(s.heap, address)
    ensures Agrees(TalonStep(s, id, address))
  {
    var s' := TalonStep(s, id, address);
    if s' != s {
      Appended(s.devices, Bundle(Talon, Byte(id), address));
      assert PinsListed(s') by { TalonKeepsPins(s, id, address); }
      assert TalonsListed(s') by { TalonIsListed(s, id, address); }
    }
  }

  lemma TalonKeepsPins(s: State, id: int, address: Ptr)
    requires PinsListed(s)
    ensures PinsListed(TalonStep(s, id, address))
  {
    Appended(s.devices, Bundle(Talon, Byte(id), address));
  }

  lemma TalonIsListed(s: State, id: int, address: Ptr)
    requires TalonsListed(s) && address !in s.heap
    ensures TalonsListed(TalonStep(s, id, address))
  {
    Appended(s.devices, Bundle(Talon, Byte(id), address));
  }

  lemma InputKeepsAgreement(s: State, id: int, address: Ptr)
    requires Agrees(s) && Allocatable(HeapWithout(s, id), address) && 0 <= id < 256
    ensures Agrees(InputStep(s, id, address))
    ensures PinOf(InputStep(s, id, address), id).isInput
  {
    var s' := InputStep(s, id, address);
    if s' != s {
      assert PinsListed(s') by { InputIsListedAfter(s, id, address); }
      assert TalonsListed(s') by { InputKeepsTalons(s, id, address); }
      assert NothingDangles(s') by { InputHeap(s, id, address); }
      assert NothingLeaks(s') by { InputHeap(s, id, address); }
    }
  }

  lemma InputIsListedAfter(s: State, id: int, address: Ptr)
    requires PinsListed(s) && 0 <= id < 256
    ensures PinsListed(InputStep(s, id, address))
  {
    Appended(s.devices, Bundle(DIO, Byte(id), address));
  }

  lemma InputKeepsTalons(s: State, id: int, address: Ptr)
    requires TalonsListed(s) && NothingDangles(s) && Allocatable(HeapWithout(s, id), address)
    ensures TalonsListed(InputStep(s, id, address))
  {
    Appended(s.devices, Bundle(DIO, Byte(id), address));
  }

  lemma InputHeap(s: State, id: int, address: Ptr)
    requires NothingDangles(s) && NothingLeaks(s) && Allocatable(HeapWithout(s, id), address)
    ensures NothingDangles(InputStep(s, id, address)) && NothingLeaks(InputStep(s, id, address))
  {
  }

  /** The entry of an input pin is always found, so the erase never runs off the list. */
  lemma InputIsListed(s: State, id: int)
    requires PinsListed(s) && PinOf(s, id).isInput
    ensures IndexOf(s.devices, DIO, id) >= 0
    ensures s.devices[IndexOf(s.devices, DIO, id)] == Bundle(DIO, id, s.pins[id].pointer)
  {
    var i :| 0 <= i < |s.devices| && s.devices[i] == Bundle(DIO, id, s.pins[id].pointer);
    assert Matches(s.devices[i], DIO, id);
  }

  lemma ErasedIndex<T>(xs: seq<T>, i: int, k: int) returns (j: int)
    requires 0 <= i < |xs| && 0 <= k < |xs| - 1
    ensures j == (if k < i then k else k + 1) && Erased(xs, i)[k] == xs[j]
  {
    j := if k < i then k else k + 1;
  }

  lemma ErasedKeeps<T>(xs: seq<T>, i: int, x: T)
    requires 0 <= i < |xs| && x in xs && x != xs[i]
    ensures x in Erased(xs, i)
  {
    var k :| 0 <= k < |xs| && xs[k] == x;
    assert Erased(xs, i)[if k < i then k else k - 1] == x;
  }

  lemma OutputKeepsAgreement(s: State, id: int, address: Ptr)
    requires Agrees(s) && Allocatable(HeapWithout(s, id), address) && 0 <= id < 256
    ensures PinOf(s, id).isInput ==> IndexOf(s.devices, DIO, id) >= 0
    ensures Agrees(OutputStep(s, id, address))
    ensures !PinOf(OutputStep(s, id, address), id).isInput
  {
    var pin := PinOf(s, id);
    if pin.isInput {
      InputIsListed(s, id);
      OutputErases(s, id, address);
    }
  }

  lemma OutputErases(s: State, id: int, address: Ptr)
    requires Agrees(s) && Allocatable(HeapWithout(s, id), address) && 0 <= id < 256
    requires PinOf(s, id).isInput && IndexOf(s.devices, DIO, id) >= 0
    ensures Agrees(OutputStep(s, id, address))
  {
    var s' := OutputStep(s, id, address);
    var i := IndexOf(s.devices, DIO, id);
    InputIsListed(s, id);
    ErasedEntries(s, i, id);
    assert PinsListed(s') by { OutputErasesPin(s, i, id, address); }
    assert TalonsListed(s') by { OutputKeepsTalons(s, i, id, address); }
    assert NothingDangles(s') && NothingLeaks(s') by { OutputHeap(s, id, address); }
  }

  lemma OutputErasesPin(s: State, i: int, id: int, address: Ptr)
    requires PinsListed(s) && PinOf(s, id).isInput && i == IndexOf(s.devices, DIO, id) && i >= 0
    ensures PinsListed(OutputStep(s, id, address))
  {
    InputIsListed(s, id);
    ErasedEntries(s, i, id);
  }

  lemma OutputKeepsTalons(s: State, i: int, id: int, address: Ptr)
    requires PinsListed(s) && TalonsListed(s) && NothingDangles(s) && Allocatable(HeapWithout(s, id), address)
    requires PinOf(s, id).isInput && i == IndexOf(s.devices, DIO, id) && i >= 0
    ensures TalonsListed(OutputStep(s, id, address))
  {
    ErasedEntries(s, i, id);
  }

  lemma OutputHeap(s: State, id: int, address: Ptr)
    requires NothingDangles(s) && NothingLeaks(s) && Allocatable(HeapWithout(s, id), address)
    requires PinOf(s, id).isInput && IndexOf(s.devices, DIO, id) >= 0
    ensures NothingDangles(OutputStep(s, id, address)) && NothingLeaks(OutputStep(s, id, address))
  {
  }

  lemma ErasedEntries(s: State, i: int, id: int)
    requires PinsListed(s) && 0 <= i < |s.devices| && Matches(s.devices[i], DIO, id)
    ensures forall k | 0 <= k < |s.devices| - 1 ::
              && Erased(s.devices, i)[k] == s.devices[if k < i then k else k + 1]
              && !Matches(Erased(s.devices, i)[k], DIO, id)
    ensures forall b | b in s.devices && b != s.devices[i] :: b in Erased(s.devices, i)
  {
    forall k | 0 <= k < |s.devices| - 1
      ensures Erased(s.devices, i)[k] == s.devices[if k < i then k else k + 1]
      ensures !Matches(Erased(s.devices, i)[k], DIO, id)
    {
      var j := ErasedIndex(s.devices, i, k);
      if j < i { assert s.devices[j].kind == DIO ==> s.devices[j].id != s.devices[i].id; }
    }
    forall b | b in s.devices && b != s.devices[i]
      ensures b in Erased(s.devices, i)
    {
      ErasedKeeps(s.devices, i, b);
    }
  }

  // ------------------------------------------------------------------ whole runs

  datatype Op = CreateTalon(id: int) | CreateInput(pin: int) | CreateOutput(pin: int) | StartGrapher {
    /** The menus only accept pins 0 to 9; a Talon may have any number. */
    predicate Accepted() {
      match this
      case CreateInput(pin) => 0 <= pin <= 9
      case CreateOutput(pin) => 0 <= pin <= 9
      case _ => true
    }
  }

  function Step(s: State, op: Op, address: Ptr): State {
    match op
    case CreateTalon(id) => TalonStep(s, id, address)
    case CreateInput(pin) => InputStep(s, pin, address)
    case CreateOutput(pin) => OutputStep(s, pin, address)
    case StartGrapher => s.(devices := s.devices + [Bundle(RoboRIO, 0, NULL)])
  }

  /** What is still live when the operation allocates. */
  function HeapFor(s: State, op: Op): map<Ptr, Object> {
    match op
    case CreateInput(pin) => HeapWithout(s, pin)
    case CreateOutput(pin) => HeapWithout(s, pin)
    case _ => s.heap
  }

  /** An operation that erases an entry finds the one to erase. */
  predicate ErasesInside(s: State, op: Op) {
    op.CreateOutput? && PinOf(s, op.pin).isInput ==> IndexOf(s.devices, DIO, op.pin) >= 0
  }

  lemma StepKeepsAgreement(s: State, op: Op, address: Ptr)
    requires Agrees(s) && Allocatable(HeapFor(s, op), address) && op.Accepted()
    ensures ErasesInside(s, op)
    ensures Agrees(Step(s, op, address))
  {
    match op
    case CreateTalon(id) => TalonKeepsAgreement(s, id, address);
    case CreateInput(pin) => InputKeepsAgreement(s, pin, address);
    case CreateOutput(pin) => OutputKeepsAgreement(s, pin, address);
    case StartGrapher => GrapherKeepsAgreement(s);
  }

  lemma GrapherKeepsAgreement(s: State)
    requires Agrees(s)
    ensures Agrees(s.(devices := s.devices + [Bundle(RoboRIO, 0, NULL)]))
  {
    GrapherKeepsPins(s);
    GrapherKeepsTalons(s);
  }

  lemma GrapherKeepsPins(s: State)
    requires PinsListed(s)
    ensures PinsListed(s.(devices := s.devices + [Bundle(RoboRIO, 0, NULL)]))
  {
    Appended(s.devices, Bundle(RoboRIO, 0, NULL));
  }

  lemma GrapherKeepsTalons(s: State)
    requires TalonsListed(s)
    ensures TalonsListed(s.(devices := s.devices + [Bundle(RoboRIO, 0, NULL)]))
  {
    Appended(s.devices, Bundle(RoboRIO, 0, NULL));
  }

  /** `trace` is a run of the tool from start-up: each state follows from the one before by an
      accepted operation, with some free address for a new object. */
  ghost predicate IsRun(ops: seq<(Op, Ptr)>, trace: seq<State>) {
    && |trace| == |ops| + 1 && trace[0] == START
    && forall k: nat | k < |ops| ::
         && ops[k].0.Accepted()
         && Allocatable(HeapFor(trace[k], ops[k].0), ops[k].1)
         && trace[k + 1] == Step(trace[k], ops[k].0, ops[k].1)
  }

  lemma {:induction false} RunAgrees(ops: seq<(Op, Ptr)>, trace: seq<State>, n: nat)
    requires IsRun(ops, trace) && n < |trace|
    ensures Agrees(trace[n])
    ensures n < |ops| ==> ErasesInside(trace[n], ops[n].0)
  {
    if n > 0 {
      RunAgrees(ops, trace, n - 1);
      StepKeepsAgreement(trace[n - 1], ops[n - 1].0, ops[n - 1].1);
    }
    if n < |ops| {
      StepKeepsAgreement(trace[n], ops[n].0, ops[n].1);
    }
  }

  /** In every reachable state a pin is looked up in the list exactly when it is an input, and
      the entry found is the only one and points at the live input. */
  lemma PinLookup(ops: seq<(Op, Ptr)>, trace: seq<State>, n: nat, pin: int)
    requires IsRun(ops, trace) && n < |trace|
    ensures var s := trace[n];
            var i := IndexOf(s.devices, DIO, pin);
            && (i >= 0 <==> PinOf(s, pin).isInput)
            && (i >= 0 ==> && s.devices[i].pointer in s.heap
                           && s.heap[s.devices[i].pointer] == InputObject(pin)
                           && forall j | 0 <= j < |s.devices| && j != i :: !Matches(s.devices[j], DIO, pin))
  {
    RunAgrees(ops, trace, n);
    var s := trace[n];
    if PinOf(s, pin).isInput {
      InputIsListed(s, pin);
      var i := IndexOf(s.devices, DIO, pin);
      forall j | 0 <= j < |s.devices| && j != i
        ensures !Matches(s.devices[j], DIO, pin)
      {
        if j < i { assert s.devices[j].kind == DIO ==> s.devices[j].id != s.devices[i].id; }
      }
    }
  }

  /** What an operation leaves alone: every other pin, every Talon already there and, unless it makes
      an output, every list entry at its place. Asking for a device that is there changes nothing. */
  lemma StepFrame(s: State, op: Op, address: Ptr)
    requires Agrees(s)
    ensures forall pin | op != CreateInput(pin) && op != CreateOutput(pin) :: PinOf(Step(s, op, address), pin) == PinOf(s, pin)
    ensures forall id | id in s.talons :: TalonOf(Step(s, op, address), id) == s.talons[id]
    ensures !op.CreateOutput? ==> s.devices <= Step(s, op, address).devices
    ensures op.CreateTalon? && op.id in s.talons ==> Step(s, op, address) == s
    ensures op.CreateInput? && PinOf(s, op.pin).isInput ==> Step(s, op, address) == s
    ensures op.CreateOutput? && !PinOf(s, op.pin).isInput && PinOf(s, op.pin).pointer != NULL ==> Step(s, op, address) == s
  {
  }

  /** Operation `k` of the first `n` says `said`, and none after it the opposite. */
  ghost predicate SaidAt(ops: seq<(Op, Ptr)>, k: nat, n: nat, said: Op, opposite: Op) {
    k < n <= |ops| && ops[k].0 == said && forall j: nat | k < j < n :: ops[j].0 != opposite
  }

  ghost predicate LastSaid(ops: seq<(Op, Ptr)>, n: nat, said: Op, opposite: Op) {
    exists k: nat :: SaidAt(ops, k, n, said, opposite)
  }

  /** In every run a pin is an input exactly when the last operation on it made it one, and likewise
      for outputs. */
  lemma {:induction false} PinUseIff(ops: seq<(Op, Ptr)>, trace: seq<State>, n: nat, pin: int)
    requires IsRun(ops, trace) && n < |trace|
    ensures PinOf(trace[n], pin).isInput <==> LastSaid(ops, n, CreateInput(pin), CreateOutput(pin))
    ensures PinOf(trace[n], pin).pointer != NULL && !PinOf(trace[n], pin).isInput
            <==> LastSaid(ops, n, CreateOutput(pin), CreateInput(pin))
  {
    if n > 0 {
      PinUseIff(ops, trace, n - 1, pin);
      RunAgrees(ops, trace, n - 1);
      PinAfterStep(trace[n - 1], ops[n - 1].0, ops[n - 1].1, pin);
      LastSaidStep(ops, n, CreateInput(pin), CreateOutput(pin));
      LastSaidStep(ops, n, CreateOutput(pin), CreateInput(pin));
    }
  }

  lemma PinAfterStep(s: State, op: Op, address: Ptr, pin: int)
    requires Agrees(s) && Allocatable(HeapFor(s, op), address) && op.Accepted()
    ensures PinOf(Step(s, op, address), pin).isInput
            <==> op == CreateInput(pin) || (PinOf(s, pin).isInput && op != CreateOutput(pin))
    ensures PinOf(Step(s, op, address), pin).pointer != NULL && !PinOf(Step(s, op, address), pin).isInput
            <==> op == CreateOutput(pin) || (PinOf(s, pin).pointer != NULL && !PinOf(s, pin).isInput && op != CreateInput(pin))
  {
  }

  lemma LastSaidStep(ops: seq<(Op, Ptr)>, n: nat, said: Op, opposite: Op)
    requires 0 < n <= |ops| && said != opposite
    ensures LastSaid(ops, n, said, opposite)
            <==> ops[n - 1].0 == said || (ops[n - 1].0 != opposite && LastSaid(ops, n - 1, said, opposite))
  {
    if k: nat :| SaidAt(ops, k, n, said, opposite) {
      assert k < n - 1 ==> SaidAt(ops, k, n - 1, said, opposite);
    }
    if ops[n - 1].0 == said {
      assert SaidAt(ops, n - 1, n, said, opposite);
    } else if ops[n - 1].0 != opposite {
      var before := n - 1;
      if k: nat :| SaidAt(ops, k, before, said, opposite) {
        assert SaidAt(ops, k, n, said, opposite);
      }
    }
  }

  /** In every reachable state each Talon has exactly one entry, which points at it, and the list
      holds no entry for a Talon that was never created. */
  lemma TalonEntries(ops: seq<(Op, Ptr)>, trace: seq<State>, n: nat, id: int)
    requires IsRun(ops, trace) && n < |trace|
    ensures var s := trace[n];
            id in s.talons ==>
              exists i | 0 <= i < |s.devices| ::
                && s.devices[i] == Bundle(Talon, Byte(id), s.talons[id])
                && forall j | 0 <= j < |s.devices| && j != i ::
                     !(s.devices[j].kind == Talon && s.devices[j].pointer == s.talons[id])
    ensures var s := trace[n];
            forall i | 0 <= i < |s.devices| && s.devices[i].kind == Talon ::
              && s.devices[i].pointer in s.heap && s.heap[s.devices[i].pointer].TalonObject?
              && s.heap[s.devices[i].pointer].id in s.talons
  {
    RunAgrees(ops, trace, n);
    var s := trace[n];
    if id in s.talons {
      var i :| 0 <= i < |s.devices| && s.devices[i] == Bundle(Talon, Byte(id), s.talons[id]);
      forall j | 0 <= j < |s.devices| && j != i
        ensures !(s.devices[j].kind == Talon && s.devices[j].pointer == s.talons[id])
      {
        if j < i { assert s.devices[j].kind == s.devices[i].kind == Talon ==> s.devices[j].pointer != s.devices[i].pointer; }
      }
    }
  }

  // ------------------------------------------------------------------ looking Talons up

  predicate Creates(op: Op, id: int) {
    op == CreateTalon(id)
  }

  /** The operation creates a Talon that is filed under `byte`. */
  predicate Files(op: Op, byte: int) {
    op.CreateTalon? && Byte(op.id) == byte
  }

  /** The first operation that creates a Talon filed under `byte`, or the number of operations. */
  function FirstFiling(ops: seq<(Op, Ptr)>, byte: int): (k: nat)
    ensures k <= |ops|
    ensures k < |ops| ==> Files(ops[k].0, byte)
    ensures forall i: nat | i < k :: !Files(ops[i].0, byte)
  {
    if ops == [] then 0
    else
      var last := |ops| - 1;
      var k := FirstFiling(ops[..last], byte);
      if k < last || Files(ops[last].0, byte) then k else |ops|
  }

  /** Talons are created by exactly the operations that say so, and are never removed. */
  lemma {:induction false} CreatedIff(ops: seq<(Op, Ptr)>, trace: seq<State>, n: nat, id: int)
    requires IsRun(ops, trace) && n < |trace|
    ensures id in trace[n].talons <==> exists k: nat | k < n :: Creates(ops[k].0, id)
  {
    if n > 0 {
      CreatedIff(ops, trace, n - 1, id);
      RunAgrees(ops, trace, n - 1);
      assert id in trace[n].talons <==> id in trace[n - 1].talons || Creates(ops[n - 1].0, id);
    }
  }

  lemma LookupAfterAppend(devices: seq<Bundle>, entry: Bundle, kind: DeviceType, id: int)
    ensures IndexOf(devices + [entry], kind, id)
         == if IndexOf(devices, kind, id) >= 0 then IndexOf(devices, kind, id)
            else if Matches(entry, kind, id) then |devices|
            else -1
  {
    assert (devices + [entry])[..|devices|] == devices;
  }

  /** Erasing an entry that does not match leaves the entry that is found the same. */
  lemma LookupAfterErase(devices: seq<Bundle>, index: int, kind: DeviceType, id: int)
    requires 0 <= index < |devices| && !Matches(devices[index], kind, id)
    ensures var r, r' := IndexOf(devices, kind, id), IndexOf(Erased(devices, index), kind, id);
            && (r >= 0 <==> r' >= 0)
            && (r >= 0 ==> Erased(devices, index)[r'] == devices[r])
  {
    var r := IndexOf(devices, kind, id);
    if r >= 0 {
      var moved := if r < index then r else r - 1;
      forall i | 0 <= i < moved
        ensures !Matches(Erased(devices, index)[i], kind, id)
      {
        var j := ErasedIndex(devices, index, i);
      }
      var j := ErasedIndex(devices, index, moved);
      FirstMatch(Erased(devices, index), moved, kind, id);
    } else {
      NoMatchAfterErase(devices, index, kind, id);
    }
  }

  lemma NoMatchAfterErase(devices: seq<Bundle>, index: int, kind: DeviceType, id: int)
    requires 0 <= index < |devices| && IndexOf(devices, kind, id) == -1
    ensures IndexOf(Erased(devices, index), kind, id) == -1
  {
    forall i | 0 <= i < |devices| - 1
      ensures !Matches(Erased(devices, index)[i], kind, id)
    {
      var j := ErasedIndex(devices, index, i);
    }
  }

  lemma FirstMatch(devices: seq<Bundle>, r: int, kind: DeviceType, id: int)
    requires 0 <= r < |devices| && Matches(devices[r], kind, id)
    requires forall i | 0 <= i < r :: !Matches(devices[i], kind, id)
    ensures IndexOf(devices, kind, id) == r
  {
  }

  /** What looking up a Talon finds, if anything. */
  function Found(s: State, id: int): Ptr {
    var r := IndexOf(s.devices, Talon, id);
    if r >= 0 then s.devices[r].pointer else NULL
  }

  /** No operation changes what a lookup finds, except that creating a Talon may make a lookup of
      its low byte succeed that failed before. */
  lemma FoundAfterStep(s: State, op: Op, address: Ptr, byte: int)
    requires Agrees(s) && Allocatable(HeapFor(s, op), address) && op.Accepted()
    ensures Found(Step(s, op, address), byte)
         == if Found(s, byte) == NULL && op.CreateTalon? && op.id !in s.talons && Byte(op.id) == byte then address
            else Found(s, byte)
  {
    FoundIsLive(s, byte);
    match op
    case CreateTalon(id) => LookupAfterAppend(s.devices, Bundle(Talon, Byte(id), address), Talon, byte);
    case CreateInput(pin) => LookupAfterAppend(s.devices, Bundle(DIO, Byte(pin), address), Talon, byte);
    case CreateOutput(pin) =>
      OutputKeepsAgreement(s, pin, address);
      if PinOf(s, pin).isInput {
        LookupAfterErase(s.devices, IndexOf(s.devices, DIO, pin), Talon, byte);
      }
    case StartGrapher => LookupAfterAppend(s.devices, Bundle(RoboRIO, 0, NULL), Talon, byte);
  }

  lemma FoundIsLive(s: State, byte: int)
    requires Agrees(s)
    ensures Found(s, byte) == NULL <==> IndexOf(s.devices, Talon, byte) == -1
    ensures Found(s, byte) == NULL ==> forall id | id in s.talons :: Byte(id) != byte
    ensures Found(s, byte) != NULL ==> Found(s, byte) in s.heap && s.heap[Found(s, byte)].TalonObject?
  {
    if IndexOf(s.devices, Talon, byte) == -1 {
      forall id | id in s.talons
        ensures Byte(id) != byte
      {
        var i :| 0 <= i < |s.devices| && s.devices[i] == Bundle(Talon, Byte(id), s.talons[id]);
        assert !Matches(s.devices[i], Talon, byte);
      }
    }
  }

  /** After `ops` a lookup finds the Talon of the first that filed one under `byte`, if any did. */
  ghost predicate FindsFirst(s: State, ops: seq<(Op, Ptr)>, byte: int) {
    var k := FirstFiling(ops, byte);
    if k == |ops| then Found(s, byte) == NULL
    else ops[k].0.id in s.talons && Found(s, byte) == s.talons[ops[k].0.id]
  }

  lemma FirstAfterStep(s: State, ops: seq<(Op, Ptr)>, op: (Op, Ptr), byte: int)
    requires Agrees(s) && Allocatable(HeapFor(s, op.0), op.1) && op.0.Accepted() && FindsFirst(s, ops, byte)
    ensures FindsFirst(Step(s, op.0, op.1), ops + [op], byte)
  {
    assert (ops + [op])[..|ops|] == ops;
    var k := FirstFiling(ops, byte);
    FoundAfterStep(s, op.0, op.1, byte);
    FoundIsLive(s, byte);
    if k < |ops| {
      TalonStays(s, op.0, op.1, ops[k].0.id);
    }
  }

  /** In every reachable state a lookup finds the Talon created first among those with that low
      byte, and fails exactly when there is none. */
  lemma {:induction false} LookupFindsFirst(ops: seq<(Op, Ptr)>, trace: seq<State>, n: nat, byte: int)
    requires IsRun(ops, trace) && n < |trace|
    ensures FindsFirst(trace[n], ops[..n], byte)
  {
    if n > 0 {
      LookupFindsFirst(ops, trace, n - 1, byte);
      RunAgrees(ops, trace, n - 1);
      assert ops[..n] == ops[..n - 1] + [ops[n - 1]];
      FirstAfterStep(trace[n - 1], ops[..n - 1], ops[n - 1], byte);
    }
  }

  lemma TalonStays(s: State, op: Op, address: Ptr, id: int)
    requires Agrees(s) && id in s.talons
    ensures id in Step(s, op, address).talons && Step(s, op, address).talons[id] == s.talons[id]
  {
  }

  /** In every run whose Talon numbers fit in a byte, a Talon is found exactly when it has been
      created, and the entry found is the only one and points at the live Talon. */
  lemma TalonLookup(ops: seq<(Op, Ptr)>, trace: seq<State>, n: nat, id: int)
    requires IsRun(ops, trace) && n < |trace|
    requires forall k: nat | k < n && ops[k].0.CreateTalon? :: 0 <= ops[k].0.id < 256
    ensures var s := trace[n];
            var i := IndexOf(s.devices, Talon, id);
            && (i >= 0 <==> exists k: nat | k < n :: Creates(ops[k].0, id))
            && (i >= 0 <==> id in s.talons)
            && (i >= 0 ==> && s.devices[i].pointer == s.talons[id]
                           && s.talons[id] in s.heap && s.heap[s.talons[id]] == TalonObject(id)
                           && forall j | 0 <= j < |s.devices| && j != i :: !Matches(s.devices[j], Talon, id))
  {
    RunAgrees(ops, trace, n);
    CreatedIff(ops, trace, n, id);
    var s := trace[n];
    forall other | other in s.talons
      ensures Byte(other) == other
    {
      CreatedIff(ops, trace, n, other);
    }
    forall j | 0 <= j < |s.devices| && Matches(s.devices[j], Talon, id)
      ensures id in s.talons && s.devices[j].pointer == s.talons[id]
    {
      assert s.heap[s.devices[j].pointer].id in s.talons;
    }
    FoundIsLive(s, id);
    var i := IndexOf(s.devices, Talon, id);
    forall j | 0 <= j < |s.devices| && j != i && i >= 0
      ensures !Matches(s.devices[j], Talon, id)
    {
      if i < j { assert s.devices[i].kind == s.devices[j].kind == Talon ==> s.devices[i].pointer != s.devices[j].pointer; }
    }
  }

  /** For Talon numbers of any size: looking up a created Talon by its number finds it exactly when
      the number fits in a byte and no Talon with the same low byte was created before it. */
  lemma TalonLookupIff(ops: seq<(Op, Ptr)>, trace: seq<State>, n: nat, first: nat)
    requires IsRun(ops, trace) && first < n < |trace| && ops[first].0.CreateTalon?
    requires forall i: nat | i < first :: ops[i].0 != ops[first].0
    ensures var id := ops[first].0.id;
            && id in trace[n].talons
            && (Found(trace[n], id) == trace[n].talons[id]
                <==> 0 <= id < 256 && forall i: nat | i < first :: !Files(ops[i].0, Byte(id)))
  {
    var id := ops[first].0.id;
    assert Creates(ops[first].0, id);
    CreatedIff(ops, trace, n, id);
    RunAgrees(ops, trace, n);
    LookupFindsFirst(ops, trace, n, id);
    FirstFilingIs(ops[..n], first);
    var k := FirstFiling(ops[..n], id);
    if k < n {
      DifferentTalons(trace[n], id, ops[k].0.id);
    }
  }

  lemma FirstFilingIs(ops: seq<(Op, Ptr)>, first: nat)
    requires first < |ops| && ops[first].0.CreateTalon?
    ensures var id := ops[first].0.id;
            FirstFiling(ops, id) == first <==> 0 <= id < 256 && forall i: nat | i < first :: !Files(ops[i].0, Byte(id))
    ensures var id := ops[first].0.id;
            if 0 <= id < 256 then FirstFiling(ops, id) <= first else FirstFiling(ops, id) == |ops|
  {
    var k := FirstFiling(ops, ops[first].0.id);
    if k < |ops| {
      assert Files(ops[k].0, ops[first].0.id);
    }
  }

  lemma DifferentTalons(s: State, id: int, other: int)
    requires NothingDangles(s) && id in s.talons && other in s.talons
    ensures s.talons[id] == s.talons[other] <==> id == other
  {
  }

  /** A Talon number above 255 is filed under its low byte, so the lookup returns another Talon. */
  lemma WideTalonNumberAliases()
    ensures var s := TalonStep(TalonStep(START, 256, 1), 0, 2);
            Agrees(s) && s.heap[s.devices[IndexOf(s.devices, Talon, 0)].pointer] == TalonObject(256)
  {
    TalonKeepsAgreement(START, 256, 1);
    TalonKeepsAgreement(TalonStep(START, 256, 1), 0, 2);
    var s := TalonStep(TalonStep(START, 256, 1), 0, 2);
    assert Byte(256) == 0 && s.devices[0] == Bundle(Talon, 0, 1);
    assert Matches(s.devices[0], Talon, 0);
  }

  /** The byte-sized identifier is why pins must be checked first: the entry just made for a new
      input pin can be found again, and so erased, exactly when the pin number fits in a byte. */
  lemma PinFoundIff(s: State, id: int, address: Ptr)
    requires Agrees(s) && id !in s.pins
    ensures IndexOf(InputStep(s, id, address).devices, DIO, id) >= 0 <==> 0 <= id < 256
  {
    var devices := InputStep(s, id, address).devices;
    assert devices[|s.devices|] == Bundle(DIO, Byte(id), address);
    if 0 <= id < 256 {
      assert Matches(devices[|s.devices|], DIO, id);
    }
  }

  /** Turning a pin into an output removes its entry and keeps the order of all others. */
  lemma OutputKeepsOrder(s: State, id: int, address: Ptr)
    requires PinsListed(s)
    ensures PinOf(s, id).isInput ==> IndexOf(s.devices, DIO, id) >= 0
    ensures Others(OutputStep(s, id, address).devices, id) == Others(s.devices, id)
    ensures IndexOf(OutputStep(s, id, address).devices, DIO, id) == -1
  {
    if PinOf(s, id).isInput {
      InputIsListed(s, id);
      var i := IndexOf(s.devices, DIO, id);
      ErasedEntries(s, i, id);
      OthersAfterErase(s.devices, i, id);
    }
  }

  lemma OthersAfterErase(devices: seq<Bundle>, i: int, id: int)
    requires 0 <= i < |devices| && Matches(devices[i], DIO, id)
    ensures Others(Erased(devices, i), id) == Others(devices, id)
  {
    var a, b := devices[..i], devices[i + 1..];
    OthersSplit(a, b, id);
    OthersSplit(a, [devices[i]] + b, id);
    OthersSplit([devices[i]], b, id);
    assert devices == a + ([devices[i]] + b);
  }

  /** The list without the entries of one pin. */
  function Others(devices: seq<Bundle>, id: int): seq<Bundle> {
    if devices == [] then []
    else (if Matches(devices[0], DIO, id) then [] else [devices[0]]) + Others(devices[1..], id)
  }

  lemma {:induction false} OthersSplit(a: seq<Bundle>, b: seq<Bundle>, id: int)
    ensures Others(a + b, id) == Others(a, id) + Others(b, id)
  {
    if a == [] {
      assert a + b == b;
    } else {
      assert (a + b)[1..] == a[1..] + b;
      OthersSplit(a[1..], b, id);
    }
  }

  // ------------------------------------------------------------------ the registry object

  method JerrysGrapherIndexOfBundleWithID(devices: seq<Bundle>, kind: DeviceType, id: int) returns (index: int)
    ensures index == IndexOf(devices, kind, id)
  {
    for i := 0 to |devices|
      invariant forall j | 0 <= j < i :: !Matches(devices[j], kind, id)
    {
      if devices[i].kind == kind {
        if devices[i].id == id {
          assert Matches(devices[i], kind, id);
          return i;
        }
      }
    }
    return -1;
  }

  class Registry {
    var devices: seq<Bundle>
    var talons: map<int, Ptr>
    var pins: map<int, DigitalBoth>
    var heap: map<Ptr, Object>

    ghost function Contents(): State
      reads this
    {
      State(devices, talons, pins, heap)
    }

    ghost predicate Valid()
      reads this
    {
      Agrees(Contents())
    }

    constructor ()
      ensures Valid() && Contents() == START
    {
      devices, talons, pins, heap := [], map[], map[], map[];
    }

    /** `delete`: the null pointer is ignored, anything else must be live. */
    method Delete(p: Ptr)
      requires p == NULL || p in heap
      modifies `heap
      ensures heap == old(heap) - {p}
    {
      heap := heap - {p};
    }

    method PossiblyCreateTalon(id: int, address: Ptr) returns (t: Ptr)
      requires Valid() && Allocatable(heap, address)
      modifies this
      ensures Valid() && Contents() == TalonStep(old(Contents()), id, address)
      ensures t in heap && heap[t] == TalonObject(id)
    {
      TalonKeepsAgreement(Contents(), id, address);
      t := TalonFor(id, address);
    }

    method TalonFor(id: int, address: Ptr) returns (t: Ptr)
      requires address != NULL
      modifies this
      ensures Contents() == TalonStep(old(Contents()), id, address)
      ensures t == TalonOf(Contents(), id)
    {
      if id !in talons || talons[id] == NULL {
        talons := talons[id := address];
        heap := heap[address := TalonObject(id)];
        t := address;
        devices := devices + [Bundle(Talon, Byte(id), t)];
      } else {
        t := talons[id];
      }
    }

    method PossiblyCreateDigitalInput(id: int, address: Ptr) returns (t: Ptr)
      requires Valid() && Allocatable(HeapWithout(Contents(), id), address)
      modifies this
      ensures Contents() == InputStep(old(Contents()), id, address)
      ensures t in heap && heap[t] == InputObject(id)
      ensures 0 <= id < 256 ==> Valid()
    {
      if 0 <= id < 256 {
        InputKeepsAgreement(Contents(), id, address);
      }
      InputHeap(Contents(), id, address);
      t := InputFor(id, address);
    }

    /** The pin's pointer must be null or live, and live when the pin is an input. */
    ghost predicate PinSound(id: int)
      reads this
    {
      && (PinOf(Contents(), id).pointer == NULL || PinOf(Contents(), id).pointer in heap)
      && (PinOf(Contents(), id).isInput ==> PinOf(Contents(), id).pointer != NULL)
      && NULL !in heap
    }

    method InputFor(id: int, address: Ptr) returns (t: Ptr)
      requires PinSound(id) && address != NULL
      modifies this
      ensures Contents() == InputStep(old(Contents()), id, address)
      ensures t == PinOf(Contents(), id).pointer
    {
      var db := if id in pins then pins[id] else EMPTY_PIN;
      if !db.isInput {
        Delete(db.pointer);
        db := db.(pointer := NULL);
      }
      if db.pointer == NULL {
        heap := heap[address := InputObject(id)];
        t := address;
        db := DigitalBoth(true, t);
        devices := devices + [Bundle(DIO, Byte(id), t)];
        pins := pins[id := db];
      } else {
        t := db.pointer;
      }
    }

    method PossiblyCreateDigitalOutput(id: int, address: Ptr) returns (t: Ptr)
      requires Valid() && Allocatable(HeapWithout(Contents(), id), address)
      modifies this
      ensures PinOf(old(Contents()), id).isInput ==> IndexOf(old(devices), DIO, id) >= 0
      ensures Contents() == OutputStep(old(Contents()), id, address)
      ensures t in heap && heap[t] == OutputObject(id)
      ensures 0 <= id < 256 ==> Valid()
    {
      if 0 <= id < 256 {
        OutputKeepsAgreement(Contents(), id, address);
      }
      t := OutputFor(id, address);
    }

    method OutputFor(id: int, address: Ptr) returns (t: Ptr)
      requires PinSound(id) && address != NULL
      requires PinOf(Contents(), id).isInput ==> IndexOf(devices, DIO, id) >= 0
      modifies this
      ensures Contents() == OutputStep(old(Contents()), id, address)
      ensures t == PinOf(Contents(), id).pointer
    {
      var db := if id in pins then pins[id] else EMPTY_PIN;
      if db.isInput {
        Delete(db.pointer);
        db := db.(pointer := NULL);
        var index := JerrysGrapherIndexOfBundleWithID(devices, DIO, id);
        devices := devices[..index] + devices[index + 1..];
      }
      if db.pointer == NULL {
        heap := heap[address := OutputObject(id)];
        t := address;
        db := DigitalBoth(false, t);
        pins := pins[id := db];
      } else {
        t := db.pointer;
      }
    }
  }
}
