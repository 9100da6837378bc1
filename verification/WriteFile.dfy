/** write_file: write a temporary file, fsync, rename. Any number of writers of one resolved path interleave;
    every step may fail, a writer may die at any point, and the machine may crash, losing renames and
    whatever was not synced. */
module WriteFile {
  import opened Wrappers

  type Data = string
  type Name = string
  type WriterId = nat

  /** `synced`: the content survives a machine crash. */
  datatype File = File(data: Data, synced: bool)

  /** A temporary file; one that a crash left behind belongs to nobody. */
  datatype Temp = Temp(owner: Option<WriterId>, file: File)

  /** `cleaned` is false only when removing the temporary file failed. */
  datatype Verdict = Written | Refused | Failed(cleaned: bool)

  datatype Pc =
    | Checking
    | Opening
    | Writing(n: nat)  // bytes written so far
    | Syncing
    | Closing
    | Renaming
    | Renamed
    | Cleaning
    | Done(verdict: Verdict)
    | Dead

  /** History: how many renames there had been at the existence check (`seen`) and at the writer's own rename,
      whether a file was there at the check (`found`), whether the check itself failed, and whether the rename
      replaced a file. */
  datatype Writer = Writer(data: Data, overwrite: bool, pc: Pc, tmp: Name, checkFailed: bool, found: bool, seen: nat,
                           renamedAt: nat, replaced: Option<bool>)

  datatype Rename = Rename(w: WriterId, file: File)

  /** `log` is the renames that are still in effect, oldest first. */
  datatype State = State(initial: Option<File>, target: Option<File>, temps: map<Name, Temp>,
                         writers: map<WriterId, Writer>, log: seq<Rename>, renames: nat)

  datatype Event =
    | Start(w: WriterId, data: Data, overwrite: bool)
    | Check(w: WriterId, statFails: bool, cancelled: bool)
    | Open(w: WriterId, name: Name, ok: bool)
    | Write(w: WriterId, n: nat, ok: bool)
    | Sync(w: WriterId, ok: bool)
    | Close(w: WriterId, ok: bool)
    | Move(w: WriterId, ok: bool)
    | Remove(w: WriterId, ok: bool)
    | Return(w: WriterId)
    | Die(w: WriterId)
    | Crash(kept: nat, torn: Data, left: map<Name, File>)

  predicate HasTemp(pc: Pc) {
    pc.Writing? || pc.Syncing? || pc.Closing? || pc.Renaming? || pc.Cleaning?
  }

  predicate AtPoint(writer: Writer, ev: Event) {
    match ev
    case Start(_, _, _) => false
    case Check(_, _, _) => writer.pc.Checking?
    case Open(_, _, _) => writer.pc.Opening?
    case Write(_, n, _) => writer.pc.Writing? && writer.pc.n <= n <= |writer.data|
    case Sync(_, _) => writer.pc.Syncing?
    case Close(_, _) => writer.pc.Closing?
    case Move(_, _) => writer.pc.Renaming?
    case Remove(_, _) => writer.pc.Cleaning?
    case Return(_) => writer.pc.Renamed?
    case Die(_) => !writer.pc.Done?
    case Crash(_, _, _) => false
  }

  predicate Enabled(s: State, ev: Event) {
    if ev.Crash? then ev.kept <= |s.log|
    else if ev.Start? then ev.w !in s.writers
    else
      && ev.w in s.writers && AtPoint(s.writers[ev.w], ev)
      && (HasTemp(s.writers[ev.w].pc) ==> s.writers[ev.w].tmp in s.temps)
  }

  /** The writer after its own step. */
  function WriterAfter(s: State, ev: Event): Writer
    requires Enabled(s, ev) && !ev.Crash? && !ev.Start?
  {
    var writer := s.writers[ev.w];
    match ev
    case Check(_, statFails, cancelled) =>
      var checked := writer.(checkFailed := statFails, found := s.target.Some?, seen := s.renames);
      if !writer.overwrite && s.target.Some? && !statFails then checked.(pc := Done(Refused))
      else if cancelled then checked.(pc := Done(Failed(true)))
      else checked.(pc := Opening)
    case Open(_, name, ok) =>
      // O_EXCL: an existing name is refused
      if !ok || name in s.temps then writer.(pc := Done(Failed(true))) else writer.(pc := Writing(0), tmp := name)
    case Write(_, n, ok) =>
      writer.(pc := if !ok then Cleaning else if n < |writer.data| then Writing(n) else Syncing)
    case Sync(_, ok) => writer.(pc := if ok then Closing else Cleaning)
    case Close(_, ok) => writer.(pc := if ok then Renaming else Cleaning)
    case Move(_, ok) =>
      if ok then writer.(pc := Renamed, renamedAt := s.renames, replaced := Some(s.target.Some?))
      else writer.(pc := Cleaning)
    case Remove(_, ok) => writer.(pc := Done(Failed(ok)))
    case Return(_) => writer.(pc := Done(Written))
    case Die(_) => writer.(pc := Dead)
  }

  /** The directory after a step. Rename is atomic. */
  function FilesAfter(s: State, ev: Event): State
    requires Enabled(s, ev) && !ev.Crash? && !ev.Start?
  {
    var writer := s.writers[ev.w];
    match ev
    case Open(w, name, ok) =>
      if !ok || name in s.temps then s else s.(temps := s.temps[name := Temp(Some(w), File("", false))])
    case Write(_, n, _) =>
      s.(temps := s.temps[writer.tmp := s.temps[writer.tmp].(file := File(writer.data[..n], false))])
    case Sync(_, ok) =>
      if !ok then s
      else
        var temp := s.temps[writer.tmp];
        s.(temps := s.temps[writer.tmp := temp.(file := temp.file.(synced := true))])
    case Move(w, ok) =>
      if !ok then s
      else
        var file := s.temps[writer.tmp].file;
        s.(target := Some(file), temps := s.temps - {writer.tmp}, log := s.log + [Rename(w, file)], renames := s.renames + 1)
    case Remove(_, ok) => if ok then s.(temps := s.temps - {writer.tmp}) else s
    case _ => s
  }

  function Shown(initial: Option<File>, log: seq<Rename>): Option<File> {
    if log == [] then initial else Some(log[|log| - 1].file)
  }

  /** What a crash leaves of a file. */
  function Survives(file: File, torn: Data): File {
    if file.synced then file else File(torn, true)
  }

  /** A crash kills every running writer, undoes the renames after the first `kept`, tears what was not
      synced and leaves arbitrary temporary files. */
  function AfterCrash(s: State, kept: nat, torn: Data, left: map<Name, File>): State
    requires kept <= |s.log|
  {
    var log := if kept == 0 then [] else s.log[..kept - 1] + [s.log[kept - 1].(file := Survives(s.log[kept - 1].file, torn))];
    State(s.initial, Shown(s.initial, log), map n | n in left :: Temp(None, left[n]),
          map w | w in s.writers :: (if s.writers[w].pc.Done? then s.writers[w] else s.writers[w].(pc := Dead)),
          log, s.renames)
  }

  function Next(s: State, ev: Event): State
    requires Enabled(s, ev)
  {
    if ev.Crash? then AfterCrash(s, ev.kept, ev.torn, ev.left)
    else if ev.Start? then
      s.(writers := s.writers[ev.w := Writer(ev.data, ev.overwrite, Checking, "", false, false, 0, 0, None)])
    else FilesAfter(s, ev).(writers := s.writers[ev.w := WriterAfter(s, ev)])
  }

  function Begin(initial: Option<Data>): State {
    var file := if initial.Some? then Some(File(initial.value, true)) else None;
    State(file, file, map[], map[], [], 0)
  }

  predicate Runs(s: State, evs: seq<Event>)
    decreases |evs|
  {
    evs == [] || (Enabled(s, evs[0]) && Runs(Next(s, evs[0]), evs[1..]))
  }

  function Final(s: State, evs: seq<Event>): State
    requires Runs(s, evs)
    decreases |evs|
  {
    if evs == [] then s else Final(Next(s, evs[0]), evs[1..])
  }

  // ---------------------------------------------------------------- the invariant

  /** The content a writer has brought its temporary file to. */
  predicate Progress(writer: Writer, file: File) {
    && (writer.pc.Writing? ==> writer.pc.n <= |writer.data| && file.data == writer.data[..writer.pc.n])
    && (writer.pc.Syncing? ==> file.data == writer.data)
    && (writer.pc.Closing? || writer.pc.Renaming? ==> file == File(writer.data, true))
  }

  predicate Past(pc: Pc) {
    pc.Renamed? || pc == Done(Written) || pc.Dead?
  }

  /** Between the check and the rename, a file is there exactly when it was found at the check or somebody renamed
      since; and only a failed check lets a writer that must not overwrite pass a file it found. */
  predicate Unclobbered(target: Option<File>, renames: nat, writer: Writer) {
    && writer.seen <= renames && (writer.replaced.Some? ==> Past(writer.pc))
    && (writer.pc.Opening? || HasTemp(writer.pc) ==> (target.Some? <==> writer.found || renames > writer.seen))
    && (writer.replaced.Some? ==> (writer.replaced.value <==> writer.found || writer.renamedAt > writer.seen))
    && (!writer.overwrite && writer.found && !writer.checkFailed ==> writer.pc == Done(Refused))
  }

  predicate HoldsTemp(s: State, w: WriterId, writer: Writer) {
    HasTemp(writer.pc) ==>
      writer.tmp in s.temps && s.temps[writer.tmp].owner == Some(w) && Progress(writer, s.temps[writer.tmp].file)
  }

  predicate WriterOk(s: State, w: WriterId, writer: Writer) {
    HoldsTemp(s, w, writer) && Unclobbered(s.target, s.renames, writer)
  }

  /** A temporary file belongs to a writer that is using it, died, or could not remove it. */
  predicate TempOk(s: State, name: Name, temp: Temp) {
    temp.owner.Some? ==>
      && temp.owner.value in s.writers
      && var writer := s.writers[temp.owner.value];
      writer.tmp == name && (HasTemp(writer.pc) || writer.pc.Dead? || writer.pc == Done(Failed(false)))
  }

  ghost predicate LogOk(s: State) {
    && s.target == Shown(s.initial, s.log)
    && forall i :: 0 <= i < |s.log| ==>
         var r := s.log[i]; r.w in s.writers && Past(s.writers[r.w].pc) && r.file == File(s.writers[r.w].data, true)
  }

  ghost predicate Inv(s: State) {
    && (forall w :: w in s.writers ==> WriterOk(s, w, s.writers[w]))
    && (forall n :: n in s.temps ==> TempOk(s, n, s.temps[n]))
    && LogOk(s)
  }

  lemma ActorHoldsTemp(s: State, ev: Event)
    requires Enabled(s, ev) && !ev.Crash? && !ev.Start?
    requires HoldsTemp(s, ev.w, s.writers[ev.w])
    ensures HoldsTemp(Next(s, ev), ev.w, WriterAfter(s, ev))
  {
    if ev.Write? && ev.n == |s.writers[ev.w].data| {
      assert s.writers[ev.w].data[..ev.n] == s.writers[ev.w].data;
    }
  }

  lemma ActorUnclobbered(s: State, ev: Event)
    requires Enabled(s, ev) && !ev.Crash? && !ev.Start?
    requires Unclobbered(s.target, s.renames, s.writers[ev.w])
    ensures Unclobbered(Next(s, ev).target, Next(s, ev).renames, WriterAfter(s, ev))
  {
  }

  lemma ActorOk(s: State, ev: Event)
    requires Enabled(s, ev) && !ev.Crash? && !ev.Start?
    requires WriterOk(s, ev.w, s.writers[ev.w])
    ensures WriterOk(Next(s, ev), ev.w, WriterAfter(s, ev))
  {
    hide HoldsTemp, Unclobbered, Next, WriterAfter;
    ActorHoldsTemp(s, ev);
    ActorUnclobbered(s, ev);
  }

  /** A step leaves the other writers' temporary files alone, and counts its rename. */
  lemma BystanderOk(s: State, ev: Event, u: WriterId)
    requires Enabled(s, ev) && !ev.Crash? && !ev.Start? && u != ev.w && u in s.writers
    requires WriterOk(s, ev.w, s.writers[ev.w]) && WriterOk(s, u, s.writers[u])
    ensures WriterOk(Next(s, ev), u, s.writers[u])
  {
  }

  lemma TempsOk(s: State, ev: Event, n: Name)
    requires Enabled(s, ev) && !ev.Crash? && !ev.Start? && n in FilesAfter(s, ev).temps
    requires WriterOk(s, ev.w, s.writers[ev.w])
    requires n in s.temps ==> TempOk(s, n, s.temps[n])
    ensures TempOk(Next(s, ev), n, FilesAfter(s, ev).temps[n])
  {
  }

  lemma LogStaysOk(s: State, ev: Event)
    requires Enabled(s, ev) && !ev.Crash? && !ev.Start? && LogOk(s)
    requires WriterOk(s, ev.w, s.writers[ev.w])
    ensures LogOk(Next(s, ev))
  {
  }

  lemma CrashOk(s: State, ev: Event)
    requires Enabled(s, ev) && ev.Crash? && Inv(s)
    ensures Inv(Next(s, ev))
  {
    var t := Next(s, ev);
    forall w | w in t.writers
      ensures WriterOk(t, w, t.writers[w])
    {
      assert WriterOk(s, w, s.writers[w]);
    }
  }

  lemma InvStep(s: State, ev: Event)
    requires Enabled(s, ev) && Inv(s)
    ensures Inv(Next(s, ev))
  {
    if ev.Crash? {
      CrashOk(s, ev);
    } else if !ev.Start? {
      hide WriterOk, TempOk, LogOk, WriterAfter, FilesAfter, Enabled;
      var t := Next(s, ev);
      forall w | w in t.writers
        ensures WriterOk(t, w, t.writers[w])
      {
        if w == ev.w {
          ActorOk(s, ev);
        } else {
          BystanderOk(s, ev, w);
        }
      }
      forall n | n in t.temps
        ensures TempOk(t, n, t.temps[n])
      {
        TempsOk(s, ev, n);
      }
      LogStaysOk(s, ev);
    }
  }

  lemma {:induction false} InvAlong(s: State, evs: seq<Event>)
    requires Runs(s, evs) && Inv(s)
    ensures Inv(Final(s, evs)) && Final(s, evs).initial == s.initial
    decreases |evs|
  {
    if evs != [] {
      InvStep(s, evs[0]);
      InvAlong(Next(s, evs[0]), evs[1..]);
    }
  }

  // ---------------------------------------------------------------- main results

  /** Atomicity. Whatever fails, dies or crashes, a reader of the target finds the initial content or the
      complete data of one writer, one that got as far as its rename; without a lost rename, the latest. */
  lemma TargetIsWhole(initial: Option<Data>, evs: seq<Event>)
    requires Runs(Begin(initial), evs)
    ensures var s := Final(Begin(initial), evs);
            if s.log == [] then s.target == Begin(initial).target
            else var w := s.log[|s.log| - 1].w;
                 w in s.writers && Past(s.writers[w].pc) && s.target == Some(File(s.writers[w].data, true))
  {
    InvAlong(Begin(initial), evs);
  }

  /** A call that fails, or is refused, has no part in the target; and it leaves no temporary file behind
      unless removing it failed. Nor does a successful call. */
  lemma FailureLeavesNothing(initial: Option<Data>, evs: seq<Event>, w: WriterId)
    requires Runs(Begin(initial), evs)
    requires w in Final(Begin(initial), evs).writers && Final(Begin(initial), evs).writers[w].pc.Done?
    ensures var s := Final(Begin(initial), evs);
            && (s.writers[w].pc.verdict != Written ==> forall i :: 0 <= i < |s.log| ==> s.log[i].w != w)
            && (s.writers[w].pc.verdict != Failed(false) ==> forall n :: n in s.temps ==> s.temps[n].owner != Some(w))
  {
    InvAlong(Begin(initial), evs);
    var s := Final(Begin(initial), evs);
    forall n | n in s.temps && s.temps[n].owner == Some(w)
      ensures s.writers[w].pc.verdict == Failed(false)
    {
      assert TempOk(s, n, s.temps[n]);
    }
  }

  /** The only steps that touch the target are a successful rename and a machine crash. */
  lemma OnlyRenameTouchesTarget(s: State, ev: Event)
    requires Enabled(s, ev) && Inv(s)
    ensures Next(s, ev).target != s.target ==> ev.Crash? || (ev.Move? && ev.ok && Next(s, ev).target == Some(File(s.writers[ev.w].data, true)))
    ensures Next(s, ev).log != s.log ==> ev.Crash? || (ev.Move? && ev.ok)
  {
    if ev.Move? {
      assert WriterOk(s, ev.w, s.writers[ev.w]);
    }
  }

  /** overwrite=false is a check, not a lock: such a writer replaces an existing file exactly when another writer
      renamed between its existence check and its own rename, or a file was there and the check itself failed,
      which the source takes for a free path. */
  lemma ClobbersIff(initial: Option<Data>, evs: seq<Event>, w: WriterId)
    requires Runs(Begin(initial), evs) && w in Final(Begin(initial), evs).writers
    requires !Final(Begin(initial), evs).writers[w].overwrite && Final(Begin(initial), evs).writers[w].replaced.Some?
    ensures var writer := Final(Begin(initial), evs).writers[w];
            writer.replaced.value <==> writer.renamedAt > writer.seen || (writer.checkFailed && writer.found)
  {
    InvAlong(Begin(initial), evs);
    assert WriterOk(Final(Begin(initial), evs), w, Final(Begin(initial), evs).writers[w]);
  }

  lemma Extend(s: State, evs: seq<Event>, t: State, ev: Event)
    requires Runs(s, evs) && Final(s, evs) == t && Enabled(t, ev)
    ensures Runs(s, evs + [ev]) && Final(s, evs + [ev]) == Next(t, ev)
    decreases |evs|
  {
    if evs == [] {
      assert evs + [ev] == [ev] && [ev][1..] == [];
      assert Runs(Next(t, ev), []);
    } else {
      assert (evs + [ev])[0] == evs[0] && (evs + [ev])[1..] == evs[1..] + [ev];
      Extend(Next(s, evs[0]), evs[1..], t, ev);
    }
  }

  ghost predicate Reachable(initial: Option<Data>, s: State) {
    exists evs :: Runs(Begin(initial), evs) && Final(Begin(initial), evs) == s
  }

  lemma Step(initial: Option<Data>, s: State, ev: Event) returns (t: State)
    requires Reachable(initial, s) && Enabled(s, ev)
    ensures t == Next(s, ev) && Reachable(initial, t)
  {
    var evs :| Runs(Begin(initial), evs) && Final(Begin(initial), evs) == s;
    Extend(Begin(initial), evs, s, ev);
    t := Next(s, ev);
  }

  /** One writer from its open file to its rename, with nothing going wrong. */
  lemma Proceed(initial: Option<Data>, s: State, w: WriterId, name: Name) returns (t: State)
    requires Reachable(initial, s) && w in s.writers && s.writers[w].pc.Opening? && name !in s.temps
    ensures Reachable(initial, t) && t.temps == s.temps && t.target.Some?
    ensures t.writers == s.writers[w := s.writers[w].(pc := Renamed, tmp := name, renamedAt := s.renames, replaced := Some(s.target.Some?))]
  {
    hide Reachable;
    var t1 := Step(initial, s, Open(w, name, true));
    var t2 := Step(initial, t1, Write(w, |s.writers[w].data|, true));
    var t3 := Step(initial, t2, Sync(w, true));
    var t4 := Step(initial, t3, Close(w, true));
    t := Step(initial, t4, Move(w, true));
  }

  /** A single writer that asked not to overwrite, and whose check failed, replaces the initial file. */
  lemma FailedCheckClobbers(old': Data, data: Data)
    ensures exists s :: Reachable(Some(old'), s) && 0 in s.writers && |s.writers| == 1
              && s.writers[0].data == data && !s.writers[0].overwrite && s.writers[0].pc.Renamed?
              && s.writers[0].replaced == Some(true) && s.writers[0].renamedAt == s.writers[0].seen
  {
    assert Reachable(Some(old'), Begin(Some(old'))) by { assert Runs(Begin(Some(old')), []); }
    hide Reachable;
    var s1 := Step(Some(old'), Begin(Some(old')), Start(0, data, false));
    var s2 := Step(Some(old'), s1, Check(0, true, false));
    var s3 := Proceed(Some(old'), s2, 0, "x");
    assert s3.writers.Keys == {0};
  }

  /** Two writers that found the path free. */
  lemma BothChecked(a: Writer, b: Writer) returns (s: State)
    requires a == Writer(a.data, false, Opening, "", false, false, 0, 0, None) && b == Writer(b.data, false, Opening, "", false, false, 0, 0, None)
    ensures Reachable(None, s) && s.writers == map[0 := a, 1 := b] && s.temps == map[] && s.target == None
  {
    assert Reachable(None, Begin(None)) by { assert Runs(Begin(None), []); }
    hide Reachable;
    var s1 := Step(None, Begin(None), Start(0, a.data, false));
    var s2 := Step(None, s1, Check(0, false, false));
    var s3 := Step(None, s2, Start(1, b.data, false));
    s := Step(None, s3, Check(1, false, false));
  }

  /** Two writers that both asked not to overwrite, on a free path: both succeed, the second over the first. */
  lemma BothClaimAFreePath(a: Data, b: Data)
    ensures exists s :: Reachable(None, s) && 0 in s.writers && 1 in s.writers
              && s.writers[0].data == a && s.writers[1].data == b && !s.writers[0].overwrite && !s.writers[1].overwrite
              && s.writers[0].pc.Renamed? && s.writers[1].pc.Renamed? && s.writers[1].replaced == Some(true)
  {
    hide Reachable;
    var s := BothChecked(Writer(a, false, Opening, "", false, false, 0, 0, None), Writer(b, false, Opening, "", false, false, 0, 0, None));
    var s1 := Proceed(None, s, 0, "x");
    var s2 := Proceed(None, s1, 1, "y");
  }

  // ---------------------------------------------------------------- the procedure

  /** What the operating system answers during one call: the chosen name, how many bytes reach the file. */
  datatype Answers = Answers(statFails: bool, cancelled: bool, name: Name, open: bool, bytes: nat, write: bool,
                             sync: bool, close: bool, rename: bool, remove: bool)

  /** The directory holding the target. Valid() ties it to the runs above, whatever other writers are doing. */
  class Folder {
    ghost const initial: Option<Data>
    var target: Option<File>
    var temps: map<Name, Temp>
    ghost var now: State

    ghost predicate Valid()
      reads this
    {
      Reachable(initial, now) && now.target == target && now.temps == temps
    }

    constructor (initial: Option<Data>)
      ensures Valid() && this.initial == initial && now == Begin(initial)
    {
      this.initial := initial;
      target := if initial.Some? then Some(File(initial.value, true)) else None;
      temps := map[];
      now := Begin(initial);
      new;
      assert Runs(Begin(initial), []);
    }

    /** Only writer w has moved. */
    twostate predicate Others(w: WriterId)
      reads this
    {
      w in now.writers && now.writers - {w} == old(now.writers) - {w}
    }

    ghost method Book(ev: Event)
      requires Reachable(initial, now) && Enabled(now, ev)
      requires Next(now, ev).target == target && Next(now, ev).temps == temps
      modifies this`now
      ensures Valid() && now == Next(old(now), ev)
    {
      hide Reachable, Next, Enabled;
      now := Step(initial, now, ev);
    }

    /** Only writer w and its temporary file have moved. */
    twostate predicate Within(w: WriterId, name: Name)
      reads this
    {
      && Others(w) && target == old(target)
      && name in temps && temps - {name} == old(temps) - {name}
    }

    method WriteTemp(w: WriterId, name: Name, data: Data, bytes: nat, ok: bool)
      requires Valid() && w in now.writers && now.writers[w].data == data && bytes <= |data| && (ok ==> bytes == |data|)
      requires now.writers[w].pc == Writing(0) && now.writers[w].tmp == name && name in temps
      modifies this
      ensures Valid() && Within(w, name) && temps[name].file == File(data[..bytes], false)
      ensures now.writers[w] == old(now.writers[w]).(pc := if ok then Syncing else Cleaning)
    {
      hide Reachable;
      temps := temps[name := temps[name].(file := File(data[..bytes], false))];
      Book(Write(w, bytes, ok));
    }

    method SyncTemp(w: WriterId, name: Name, ok: bool)
      requires Valid() && w in now.writers && now.writers[w].pc == Syncing && now.writers[w].tmp == name && name in temps
      modifies this
      ensures Valid() && Within(w, name) && temps[name].file == old(temps[name].file).(synced := ok || old(temps[name].file.synced))
      ensures now.writers[w] == old(now.writers[w]).(pc := if ok then Closing else Cleaning)
    {
      hide Reachable;
      if ok { temps := temps[name := temps[name].(file := temps[name].file.(synced := true))]; }
      Book(Sync(w, ok));
    }

    method CloseTemp(w: WriterId, name: Name, ok: bool)
      requires Valid() && w in now.writers && now.writers[w].pc == Closing && now.writers[w].tmp == name && name in temps
      modifies this`now
      ensures Valid() && Within(w, name)
      ensures now.writers[w] == old(now.writers[w]).(pc := if ok then Renaming else Cleaning)
    {
      hide Reachable;
      Book(Close(w, ok));
    }

    /** Write, fsync and close the open temporary file. */
    method Fill(w: WriterId, name: Name, data: Data, a: Answers) returns (ok: bool)
      requires Valid() && w in now.writers && now.writers[w].data == data && a.bytes <= |data|
      requires now.writers[w].pc == Writing(0) && now.writers[w].tmp == name && name in temps
      requires a.write ==> a.bytes == |data|  // a short write is an error
      modifies this
      ensures Valid() && Within(w, name)
      ensures ok <==> a.write && a.sync && a.close
      ensures ok ==> temps[name].file == File(data, true)
      ensures now.writers[w] == old(now.writers[w]).(pc := if ok then Renaming else Cleaning)
    {
      hide Reachable;
      WriteTemp(w, name, data, a.bytes, a.write);
      if !a.write { return false; }
      SyncTemp(w, name, a.sync);
      if !a.sync { return false; }
      CloseTemp(w, name, a.close);
      ok := a.close;
      assert data[..|data|] == data;
    }

    method Publish(w: WriterId, name: Name, ok: bool)
      requires Valid() && w in now.writers && now.writers[w].pc == Renaming && now.writers[w].tmp == name && name in temps
      modifies this
      ensures Valid() && Others(w) && now.writers[w].tmp == name
      ensures now.writers[w].pc == if ok then Done(Written) else Cleaning
      ensures target == (if ok then Some(old(temps[name].file)) else old(target)) && temps == if ok then old(temps) - {name} else old(temps)
    {
      hide Reachable;
      if ok {
        target, temps := Some(temps[name].file), temps - {name};
      }
      Book(Move(w, ok));
      if ok { Book(Return(w)); }
    }

    method Discard(w: WriterId, name: Name, ok: bool)
      requires Valid() && w in now.writers && now.writers[w].pc == Cleaning && now.writers[w].tmp == name && name in temps
      modifies this
      ensures Valid() && target == old(target) && temps == if ok then old(temps) - {name} else old(temps)
      ensures Others(w) && now.writers[w].pc == Done(Failed(ok))
    {
      hide Reachable;
      if ok { temps := temps - {name}; }
      Book(Remove(w, ok));
    }

    /** The existence check, the cancellation check and the exclusive creation. */
    method CreateTemp(w: WriterId, data: Data, overwrite: bool, a: Answers) returns (v: Option<Verdict>)
      requires Valid() && w !in now.writers
      modifies this
      ensures Valid() && target == old(target) && Others(w) && now.writers[w].data == data
      ensures v == Some(Refused) <==> !overwrite && target.Some? && !a.statFails
      ensures v.None? <==> !(!overwrite && target.Some? && !a.statFails) && !a.cancelled && a.open && a.name !in old(temps)
      ensures v.Some? ==> (v.value == Refused || v.value == Failed(true)) && temps == old(temps) && now.writers[w].pc == Done(v.value)
      ensures v.None? ==> temps == old(temps)[a.name := Temp(Some(w), File("", false))]
                          && now.writers[w].pc == Writing(0) && now.writers[w].tmp == a.name
    {
      hide Reachable;
      Book(Start(w, data, overwrite));
      Book(Check(w, a.statFails, a.cancelled));
      if !overwrite && target.Some? && !a.statFails { return Some(Refused); }
      if a.cancelled { return Some(Failed(true)); }
      var created := a.open && a.name !in temps;
      if created { temps := temps[a.name := Temp(Some(w), File("", false))]; }
      Book(Open(w, a.name, a.open));
      v := if created then None else Some(Failed(true));
    }

    /** writeFile after path resolution, undisturbed from whatever state other writers left the directory in. */
    method WriteFile(w: WriterId, data: Data, overwrite: bool, a: Answers) returns (v: Verdict)
      requires Valid() && w !in now.writers
      requires a.bytes <= |data| && (a.write ==> a.bytes == |data|)
      modifies this
      ensures Valid() && Others(w) && now.writers[w].pc == Done(v)
      ensures v == Refused <==> !overwrite && old(target).Some? && !a.statFails
      ensures v == Written <==> v != Refused && !a.cancelled && a.open && a.name !in old(temps)
                                && a.write && a.sync && a.close && a.rename
      ensures v == Written ==> target == Some(File(data, true)) && temps == old(temps)
      ensures v != Written ==> target == old(target)
      ensures v != Failed(false) ==> temps == old(temps)
    {
      hide Reachable, Next, Enabled;
      var early := CreateTemp(w, data, overwrite, a);
      if early.Some? { return early.value; }
      var ok := Fill(w, a.name, data, a);
      if ok {
        Publish(w, a.name, a.rename);
        if a.rename { return Written; }
      }
      Discard(w, a.name, a.remove);
      v := Failed(a.remove);
    }
  }
}
