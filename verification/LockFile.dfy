/** The project's lock file: an in-memory record, saved after every change through a temporary file that is
    renamed into place. A process may die between any two file-system steps. */
module LockFile {
  import opened Options

  datatype Data = Data(version: nat, rie: string, images: map<string, string>, layers: map<string, string>)

  /** What a file holds: one whole encoded record, or something a write was interrupted in. Encoding and decoding
      a whole record are taken to be inverse. */
  datatype Content = Whole(data: Data) | Torn

  /** How a call ended. After Crashed the process is gone and only the disk is left. */
  datatype Outcome = Ok | Failed | Crashed

  datatype Op =
    | RecordImage(tag: string, digest: string)
    | RecordLayer(arn: string, digest: string)
    | SetRIE(rie: string)
    | Save

  const EMPTY_DATA := Data(1, "", map[], map[])

  /** The change an operation makes to the record in memory. */
  function Mutate(d: Data, op: Op): Data {
    match op
    case RecordImage(t, g) => d.(images := d.images[t := g])
    case RecordLayer(a, g) => d.(layers := d.layers[a := g])
    case SetRIE(v) => d.(rie := v)
    case Save => d
  }

  function Normal(d: Data): Data { if d.version == 0 then d.(version := 1) else d }

  /** Load: no file and an unreadable one are both the empty record. */
  function Loaded(file: Option<Content>): Data {
    if file.Some? && file.value.Whole? then Normal(file.value.data) else EMPTY_DATA
  }

  // ---------------------------------------------------------------------------------------------
  // The disk, and the lock of one process
  // ---------------------------------------------------------------------------------------------

  method AnyOutcome() returns (o: Outcome, b: bool) {
    o, b := *, *;
  }

  class Disk {
    var file: Option<Content>
    var temps: map<nat, Content>
    var names: nat               // every temporary name given out so far is below this
    ghost var history: seq<Data>
    ghost var saved: nat

    ghost predicate Valid()
      reads this
    {
      (forall k :: k in temps ==> k < names) && file != Some(Torn)
    }

    constructor ()
      ensures Valid() && file == None && history == [] && saved == 0
    {
      file, temps, names, history, saved := None, map[], 0, [], 0;
    }

    method CreateTemp() returns (o: Outcome, id: nat)
      requires Valid()
      modifies this`temps, this`names
      ensures Valid()
      ensures o == Ok ==> id !in old(temps) && temps == old(temps)[id := Torn]
    {
      var luck;
      o, luck := AnyOutcome();
      id, names := names, names + 1;
      if o != Failed { temps := temps[id := Torn]; }
    }

    method WriteTemp(id: nat, d: Data) returns (o: Outcome)
      requires Valid() && id in temps
      modifies this`temps
      ensures Valid() && temps.Keys == old(temps).Keys
      ensures o == Ok ==> temps[id] == Whole(d)
    {
      var whole;
      o, whole := AnyOutcome();
      temps := temps[id := if o == Ok || whole then Whole(d) else Torn];
    }

    method Remove(id: nat)
      requires Valid()
      modifies this`temps
      ensures Valid() && temps == old(temps) - {id}
    {
      temps := temps - {id};
    }

    /** Rename is atomic: it happens or it does not, also when the process dies around it. */
    method Rename(id: nat) returns (o: Outcome, done: bool)
      requires Valid() && id in temps && temps[id].Whole?
      modifies this`file, this`temps
      ensures Valid() && (o == Ok ==> done) && (o == Failed ==> !done)
      ensures file == if done then Some(old(temps)[id]) else old(file)
    {
      o, done := AnyOutcome();
      done := if o == Ok then true else if o == Failed then false else done;
      if done {
        file, temps := Some(temps[id]), temps - {id};
      }
    }
  }

  // ---------------------------------------------------------------------------------------------
  // What a call does, on values
  // ---------------------------------------------------------------------------------------------

  /** One process's record, the file, and the history of the record: every value it has had in memory, over all
      processes, in order; `saved` is the position of the one in the file. */
  datatype World = World(mem: Data, file: Option<Content>, history: seq<Data>, saved: nat)

  datatype Step = Call(op: Op, o: Outcome, renamed: bool) | Load

  predicate StepOk(st: Step) { st.Call? ==> (st.o == Ok ==> st.renamed) && (st.o == Failed ==> !st.renamed) }

  function After(w: World, st: Step): World {
    match st
    case Load => var d := Loaded(w.file); w.(mem := d, history := w.history + [d])
    case Call(op, _, renamed) =>
      var d := Mutate(w.mem, op);
      var w := w.(mem := d, history := w.history + [d]);
      if renamed then w.(file := Some(Whole(d)), saved := |w.history| - 1) else w
  }

  class Lock {
    const disk: Disk
    var data: Data

    ghost function Current(): World
      reads this, disk
    {
      World(data, disk.file, disk.history, disk.saved)
    }

    /** Load never fails its caller. */
    constructor (disk: Disk)
      requires disk.Valid()
      modifies disk`history
      ensures this.disk == disk && disk.Valid()
      ensures Current() == After(old(World(EMPTY_DATA, disk.file, disk.history, disk.saved)), Load)
      ensures disk.file.Some? && disk.file.value.Whole? ==>
                data == disk.file.value.data.(version := if disk.file.value.data.version == 0 then 1
                                                         else disk.file.value.data.version)
      ensures disk.file == None || disk.file == Some(Torn) ==> data == Data(1, "", map[], map[])
    {
      this.disk := disk;
      data := if disk.file.Some? && disk.file.value.Whole? then Normal(disk.file.value.data) else EMPTY_DATA;
      new;
      disk.history := disk.history + [data];
    }

    /** saveLocked: encode, temporary file, write, close, rename. */
    method SaveLocked() returns (o: Outcome, ghost renamed: bool)
      requires disk.Valid()
      modifies disk`file, disk`temps, disk`names
      ensures disk.Valid() && StepOk(Call(Save, o, renamed))
      ensures disk.file == if renamed then Some(Whole(data)) else old(disk.file)
    {
      renamed := false;
      var luck;
      o, luck := AnyOutcome();            // MkdirAll and Marshal
      if o != Ok { return; }
      var id;
      o, id := disk.CreateTemp();
      if o != Ok { return; }
      o := disk.WriteTemp(id, data);      // Write and Close
      if o == Ok {
        var done;
        o, done := disk.Rename(id);
        renamed := done;
      }
      if o == Failed { disk.Remove(id); }
    }

    /** RecordImage, RecordLayer, SetRIE and Save: change the record, then save it before returning. */
    method Record(op: Op) returns (o: Outcome, ghost renamed: bool)
      requires disk.Valid()
      modifies this, disk
      ensures disk.Valid() && StepOk(Call(op, o, renamed))
      ensures Current() == After(old(Current()), Call(op, o, renamed))
      ensures forall key, value ::
                Has(data, key, value) <==> Gives(op, key, value) || (Has(old(data), key, value) && !Touches(op, key))
    {
      forall key, value
        ensures Has(Mutate(data, op), key, value)
                <==> Gives(op, key, value) || (Has(data, key, value) && !Touches(op, key))
      {
        RecordsWhatIsGiven(data, op, key, value);
      }
      data := Mutate(data, op);
      o, renamed := SaveLocked();
      disk.history := disk.history + [data];
      if renamed { disk.saved := |disk.history| - 1; }
    }
  }

  // ---------------------------------------------------------------------------------------------
  // Every sequence of processes, calls and crashes
  // ---------------------------------------------------------------------------------------------

  predicate Run(worlds: seq<World>, steps: seq<Step>) {
    && |worlds| == |steps| + 1
    && worlds[0].file == None && worlds[0].history == []
    && (|steps| > 0 ==> steps[0] == Load)
    && forall k :: 0 <= k < |steps| ==> StepOk(steps[k]) && worlds[k + 1] == After(worlds[k], steps[k])
  }

  /** The file is absent, or exactly one earlier value of the record, and never a mixture. */
  predicate FileIsSnapshot(w: World) {
    && (w.history != [] ==> w.mem == w.history[|w.history| - 1])
    && (w.file.Some? ==> w.saved < |w.history| && w.file == Some(Whole(w.history[w.saved])))
  }

  lemma {:induction false} FileIsAlwaysSnapshot(worlds: seq<World>, steps: seq<Step>, k: nat)
    requires Run(worlds, steps) && k <= |steps|
    ensures FileIsSnapshot(worlds[k])
  {
    if k > 0 {
      FileIsAlwaysSnapshot(worlds, steps, k - 1);
      assert worlds[k] == After(worlds[k - 1], steps[k - 1]);
    }
  }

  /** The snapshots reach the file in the order of the operations, and the file is never lost. */
  lemma {:induction false} SavesInOrder(worlds: seq<World>, steps: seq<Step>, j: nat, k: nat)
    requires Run(worlds, steps) && j <= k <= |steps| && worlds[j].file.Some?
    ensures worlds[k].file.Some? && worlds[j].saved <= worlds[k].saved
    ensures worlds[j].history <= worlds[k].history
  {
    if j < k {
      SavesInOrder(worlds, steps, j, k - 1);
      FileIsAlwaysSnapshot(worlds, steps, k - 1);
      assert worlds[k] == After(worlds[k - 1], steps[k - 1]);
    }
  }

  /** One entry of the record. */
  datatype Key = Image(tag: string) | Layer(arn: string) | Rie

  predicate Has(d: Data, key: Key, value: string) {
    match key
    case Image(t) => t in d.images && d.images[t] == value
    case Layer(a) => a in d.layers && d.layers[a] == value
    case Rie => d.rie == value
  }

  /** A call that is to record this. */
  predicate Gives(op: Op, key: Key, value: string) {
    match key
    case Image(t) => op == RecordImage(t, value)
    case Layer(a) => op == RecordLayer(a, value)
    case Rie => op == SetRIE(value)
  }

  /** Some call from step k on, before step n, was to record for this key what the record has for it. */
  predicate Gave(steps: seq<Step>, k: nat, n: nat, key: Key, d: Data) {
    exists j :: k <= j < n && j < |steps| && steps[j].Call? && GivesWhat(steps[j].op, key, d)
  }

  predicate GivesWhat(op: Op, key: Key, d: Data) {
    match key
    case Image(t) => t in d.images && Gives(op, key, d.images[t])
    case Layer(a) => a in d.layers && Gives(op, key, d.layers[a])
    case Rie => Gives(op, key, d.rie)
  }

  predicate Touches(op: Op, key: Key) {
    match op
    case RecordImage(t, _) => key == Image(t)
    case RecordLayer(a, _) => key == Layer(a)
    case SetRIE(_) => key == Rie
    case Save => false
  }

  /** A record call changes the entry of its key to what it was given, and no other entry. */
  lemma RecordsWhatIsGiven(d: Data, op: Op, key: Key, value: string)
    ensures Has(Mutate(d, op), key, value) <==> Gives(op, key, value) || (Has(d, key, value) && !Touches(op, key))
  {
  }

  lemma GaveGrows(steps: seq<Step>, k: nat, n: nat, key: Key, d: Data)
    requires Gave(steps, k, n, key, d)
    ensures Gave(steps, k, n + 1, key, d)
  {
  }

  lemma GaveAfter(steps: seq<Step>, k: nat, n: nat, key: Key, d: Data)
    requires k < n <= |steps| && steps[n - 1].Call?
    requires Gave(steps, k, n - 1, key, d) || Touches(steps[n - 1].op, key)
    ensures Gave(steps, k, n, key, Mutate(d, steps[n - 1].op))
  {
    var op := steps[n - 1].op;
    if Touches(op, key) {
      assert GivesWhat(op, key, Mutate(d, op));
    } else {
      var j :| k <= j < n - 1 && j < |steps| && steps[j].Call? && GivesWhat(steps[j].op, key, d);
      assert GivesWhat(steps[j].op, key, Mutate(d, op));
    }
  }

  /** Once a record call has returned nil, memory and every later Load have for its key what it or a later call gave. */
  lemma {:induction false} LaterLoadsSeeIt(worlds: seq<World>, steps: seq<Step>, k: nat, n: nat, key: Key)
    requires Run(worlds, steps) && k < n <= |steps|
    requires steps[k].Call? && steps[k].o == Ok && Touches(steps[k].op, key)
    ensures Gave(steps, k, n, key, worlds[n].mem)
    ensures worlds[n].file.Some? && worlds[n].file.value.Whole?
    ensures Gave(steps, k, n, key, worlds[n].file.value.data)
  {
    if k < n - 1 { LaterLoadsSeeIt(worlds, steps, k, n - 1, key); }
    assert worlds[n] == After(worlds[n - 1], steps[n - 1]);
    SeenAfter(worlds[n - 1], steps, k, n, key);
  }

  lemma SeenAfter(w: World, steps: seq<Step>, k: nat, n: nat, key: Key)
    requires k < n <= |steps| && StepOk(steps[k]) && StepOk(steps[n - 1])
    requires steps[k].Call? && steps[k].o == Ok && Touches(steps[k].op, key)
    requires k < n - 1 ==>
               && Gave(steps, k, n - 1, key, w.mem)
               && w.file.Some? && w.file.value.Whole? && Gave(steps, k, n - 1, key, w.file.value.data)
    ensures var w' := After(w, steps[n - 1]);
            && Gave(steps, k, n, key, w'.mem)
            && w'.file.Some? && w'.file.value.Whole? && Gave(steps, k, n, key, w'.file.value.data)
  {
    if k < n - 1 { GaveGrows(steps, k, n - 1, key, w.file.value.data); }
    if steps[n - 1].Call? {
      GaveAfter(steps, k, n, key, w.mem);
    } else {
      GaveNormal(steps, k, n, key, w.file.value.data);
    }
  }

  lemma GaveNormal(steps: seq<Step>, k: nat, n: nat, key: Key, d: Data)
    requires Gave(steps, k, n, key, d)
    ensures Gave(steps, k, n, key, Normal(d))
  {
    var j :| k <= j < n && j < |steps| && steps[j].Call? && GivesWhat(steps[j].op, key, d);
    assert GivesWhat(steps[j].op, key, Normal(d));
  }

  /** In particular, if no later call records anything for the key, every later Load finds just what was given. */
  lemma RecordedIsDurable(worlds: seq<World>, steps: seq<Step>, k: nat, n: nat, key: Key, value: string)
    requires Run(worlds, steps) && k < n <= |steps|
    requires steps[k].Call? && steps[k].o == Ok && Gives(steps[k].op, key, value)
    requires forall j, v :: k < j < n && steps[j].Call? ==> !Gives(steps[j].op, key, v)
    ensures Has(Loaded(worlds[n].file), key, value)
  {
    LaterLoadsSeeIt(worlds, steps, k, n, key);
    var d := worlds[n].file.value.data;
    var j :| k <= j < n && j < |steps| && steps[j].Call? && GivesWhat(steps[j].op, key, d);
    assert j == k;
  }

  /** So a recorded digest is there after any number of processes, failures and crashes. */
  lemma DigestsAreDurable(worlds: seq<World>, steps: seq<Step>, k: nat, n: nat, name: string, value: string)
    requires Run(worlds, steps) && k < n <= |steps| && steps[k].Call? && steps[k].o == Ok
    ensures var d := Loaded(worlds[n].file);
            && (steps[k].op == RecordImage(name, value)
                && (forall j :: k < j < n && steps[j].Call? && steps[j].op.RecordImage? ==> steps[j].op.tag != name) ==>
                  name in d.images && d.images[name] == value)
            && (steps[k].op == RecordLayer(name, value)
                && (forall j :: k < j < n && steps[j].Call? && steps[j].op.RecordLayer? ==> steps[j].op.arn != name) ==>
                  name in d.layers && d.layers[name] == value)
            && (steps[k].op == SetRIE(value)
                && (forall j :: k < j < n && steps[j].Call? ==> !steps[j].op.SetRIE?) ==>
                  d.rie == value)
  {
    match steps[k].op
    case RecordImage(t, g) =>
      if forall j :: k < j < n && steps[j].Call? && steps[j].op.RecordImage? ==> steps[j].op.tag != t {
        RecordedIsDurable(worlds, steps, k, n, Image(t), g);
      }
    case RecordLayer(a, g) =>
      if forall j :: k < j < n && steps[j].Call? && steps[j].op.RecordLayer? ==> steps[j].op.arn != a {
        RecordedIsDurable(worlds, steps, k, n, Layer(a), g);
      }
    case SetRIE(v) =>
      if forall j :: k < j < n && steps[j].Call? ==> !steps[j].op.SetRIE? {
        RecordedIsDurable(worlds, steps, k, n, Rie, v);
      }
    case Save =>
  }
}
