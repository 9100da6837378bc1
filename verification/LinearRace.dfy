/** The lifecycle with handlers that interleave: every API call of a handler is a step of its own, so a handler may
    act on a query that others have made stale. */
module LinearRace {
  import opened Wrappers
  import opened Counting
  import opened LinearLifecycle

  type HandlerId = nat

  datatype Step =
    | Querying
    | Creating                                    // the query found no open issue
    | Updating(id: IssueId, createdAt: int)
    | Commenting(id: IssueId, thenArchive: bool)
    | Archiving(id: IssueId)
    | Ended(ok: bool)

  datatype Handler = Handler(alert: Alert, step: Step)

  datatype State = State(issues: Issues, handlers: map<HandlerId, Handler>)

  datatype Event =
    | Deliver(h: HandlerId, alert: Alert)
    | Query(h: HandlerId, pick: Option<IssueId>, ok: bool)
    | Create(h: HandlerId, id: IssueId, createdAt: int, fault: Fault)
    | Update(h: HandlerId, now: int, interval: int, fault: Fault)
    | Comment(h: HandlerId, fault: Fault)
    | Archive(h: HandlerId, fault: Fault)

  predicate AtStep(step: Step, ev: Event) {
    match ev
    case Deliver(_, _) => false
    case Query(_, _, _) => step.Querying?
    case Create(_, _, _, _) => step.Creating?
    case Update(_, _, _, _) => step.Updating?
    case Comment(_, _) => step.Commenting?
    case Archive(_, _) => step.Archiving?
  }

  function TagOf(hash: string -> string, a: Alert): string {
    DedupLabel(hash, a.group)
  }

  ghost predicate Enabled(hash: string -> string, s: State, ev: Event) {
    if ev.Deliver? then ev.h !in s.handlers
    else
      && ev.h in s.handlers && AtStep(s.handlers[ev.h].step, ev)
      && (ev.Query? && ev.ok ==> IsPick(s.issues, TagOf(hash, s.handlers[ev.h].alert), ev.pick))
      && (ev.Create? ==> ev.id !in s.issues)
  }

  /** What the handler does with the answer to its query. */
  function AfterQuery(s: Issues, a: Alert, pick: Option<IssueId>): Step {
    if pick.None? then (if a.firing then Creating else Ended(true))
    else if a.firing then Updating(pick.value, if pick.value in s then s[pick.value].createdAt else 0)
    else Commenting(pick.value, true)
  }

  function StepAfter(s: Issues, handler: Handler, ev: Event): Step
    requires AtStep(handler.step, ev)
  {
    match ev
    case Query(_, pick, ok) => if ok then AfterQuery(s, handler.alert, pick) else Ended(false)
    case Create(_, _, _, fault) => Ended(fault == NoFault)
    case Update(_, now, interval, fault) =>
      if fault != NoFault then Ended(false)
      else if now - handler.step.createdAt >= interval then Commenting(handler.step.id, false)
      else Ended(true)
    case Comment(_, fault) =>
      if fault != NoFault then Ended(false) else if handler.step.thenArchive then Archiving(handler.step.id) else Ended(true)
    case Archive(_, fault) => Ended(fault == NoFault)
  }

  function IssuesAfter(hash: string -> string, s: Issues, handler: Handler, ev: Event): Issues
    requires AtStep(handler.step, ev)
  {
    var a := handler.alert;
    match ev
    case Query(_, _, _) => s
    case Create(_, id, createdAt, fault) =>
      Created(s, id, Issue(BuildLabels(hash, a.severity, a.capability, a.group), true, createdAt, a.body, 0), fault)
    case Update(_, _, _, fault) => Updated(s, handler.step.id, a.body, fault)
    case Comment(_, fault) => Commented(s, handler.step.id, fault)
    case Archive(_, fault) => Archived(s, handler.step.id, fault)
  }

  ghost function Next(hash: string -> string, s: State, ev: Event): State
    requires Enabled(hash, s, ev)
  {
    if ev.Deliver? then s.(handlers := s.handlers[ev.h := Handler(ev.alert, Querying)])
    else
      var handler := s.handlers[ev.h];
      State(IssuesAfter(hash, s.issues, handler, ev),
            s.handlers[ev.h := handler.(step := StepAfter(s.issues, handler, ev))])
  }

  ghost predicate Runs(hash: string -> string, s: State, evs: seq<Event>)
    decreases |evs|
  {
    evs == [] || (Enabled(hash, s, evs[0]) && Runs(hash, Next(hash, s, evs[0]), evs[1..]))
  }

  ghost function Final(hash: string -> string, s: State, evs: seq<Event>): State
    requires Runs(hash, s, evs)
    decreases |evs|
  {
    if evs == [] then s else Final(hash, Next(hash, s, evs[0]), evs[1..])
  }

  // ---------------------------------------------------------------- a handler alone

  lemma Prepend(hash: string -> string, s: State, ev: Event, rest: seq<Event>)
    requires Enabled(hash, s, ev) && Runs(hash, Next(hash, s, ev), rest)
    ensures Runs(hash, s, [ev] + rest) && Final(hash, s, [ev] + rest) == Final(hash, Next(hash, s, ev), rest)
  {
    hide Enabled, Next;
    assert ([ev] + rest)[0] == ev && ([ev] + rest)[1..] == rest;
  }

  lemma RunOne(hash: string -> string, s: State, ev: Event)
    requires Enabled(hash, s, ev)
    ensures Runs(hash, s, [ev]) && Final(hash, s, [ev]) == Next(hash, s, ev)
  {
    hide Enabled, Next;
    assert Runs(hash, Next(hash, s, ev), []);
    Prepend(hash, s, ev, []);
    assert [ev] + [] == [ev];
  }

  lemma RunTwo(hash: string -> string, s: State, ev: Event, ev': Event)
    requires Enabled(hash, s, ev) && Enabled(hash, Next(hash, s, ev), ev')
    ensures Runs(hash, s, [ev, ev']) && Final(hash, s, [ev, ev']) == Next(hash, Next(hash, s, ev), ev')
  {
    hide Enabled, Next;
    RunOne(hash, Next(hash, s, ev), ev');
    Prepend(hash, s, ev, [ev']);
    assert [ev] + [ev'] == [ev, ev'];
  }

  /** The API calls of one handler after its query. */
  function Calls(s: Issues, h: HandlerId, a: Alert, pick: Option<IssueId>, e: Env): seq<Event> {
    if !e.findOk then []
    else if pick.None? then (if a.firing then [Create(h, e.freshId, e.createdAt, e.create)] else [])
    else if a.firing then
      var update := Update(h, e.now, e.interval, e.update);
      if e.update == NoFault && pick.value in s && e.now - s[pick.value].createdAt >= e.interval then [update, Comment(h, e.comment)] else [update]
    else if e.comment == NoFault then [Comment(h, e.comment), Archive(h, e.archive)]
    else [Comment(h, e.comment)]
  }

  /** Undisturbed, those calls do to the tracker exactly what handling the event in one go does, and end as it ends. */
  lemma AloneAsHandled(hash: string -> string, s: State, h: HandlerId, a: Alert, pick: Option<IssueId>, e: Env)
    requires h !in s.handlers && e.freshId !in s.issues && (e.findOk ==> IsPick(s.issues, TagOf(hash, a), pick))
    ensures Enabled(hash, s, Deliver(h, a)) && Enabled(hash, Next(hash, s, Deliver(h, a)), Query(h, pick, e.findOk))
    ensures var t := Next(hash, Next(hash, s, Deliver(h, a)), Query(h, pick, e.findOk));
            && Runs(hash, t, Calls(s.issues, h, a, pick, e))
            && var last := Final(hash, t, Calls(s.issues, h, a, pick, e));
            && last.issues == Handle(hash, s.issues, a, pick, e).0
            && h in last.handlers && last.handlers[h] == Handler(a, Ended(Handle(hash, s.issues, a, pick, e).1))
  {
    hide BuildLabels, DedupLabel;
    var t := Next(hash, Next(hash, s, Deliver(h, a)), Query(h, pick, e.findOk));
    var calls := Calls(s.issues, h, a, pick, e);
    if |calls| == 1 {
      RunOne(hash, t, calls[0]);
    } else if |calls| == 2 {
      RunTwo(hash, t, calls[0], calls[1]);
    }
  }

  // ---------------------------------------------------------------- the bound

  predicate IsCreating(hash: string -> string, tag: string, handler: Handler) {
    handler.step.Creating? && TagOf(hash, handler.alert) == tag
  }

  /** Handlers of the label that found no open issue and have not finished creating one. */
  ghost function Pending(hash: string -> string, s: State, tag: string): set<HandlerId> {
    set h | h in s.handlers && IsCreating(hash, tag, s.handlers[h])
  }

  /** At every state of the run, at most `bound` such handlers overlap. */
  ghost predicate OverlapAtMost(hash: string -> string, s: State, evs: seq<Event>, tag: string, bound: nat)
    requires Runs(hash, s, evs)
    decreases |evs|
  {
    |Pending(hash, s, tag)| <= bound && (evs == [] || OverlapAtMost(hash, Next(hash, s, evs[0]), evs[1..], tag, bound))
  }

  ghost predicate Bounded(hash: string -> string, s: State, tag: string, bound: nat) {
    |Open(s.issues, tag)| + |Pending(hash, s, tag)| <= bound
  }

  /** Only a create adds an open issue, one, to its own label. */
  lemma OpenGrowth(hash: string -> string, s: State, ev: Event, group: string)
    requires Enabled(hash, s, ev) && !ev.Deliver?
    ensures var t, tag := Next(hash, s, ev), DedupLabel(hash, group);
            Open(t.issues, tag) <= Open(s.issues, tag) + (if ev.Create? && ev.h in Pending(hash, s, tag) then {ev.id} else {})
  {
    var a := s.handlers[ev.h].alert;
    OneDedupLabel(hash, a.severity, a.capability, a.group, group);
    hide BuildLabels, DedupLabel;
  }

  lemma PendingAfter(hash: string -> string, s: State, ev: Event, tag: string)
    requires Enabled(hash, s, ev)
    ensures var t := Next(hash, s, ev);
            && (ev.Create? ==> Pending(hash, t, tag) == Pending(hash, s, tag) - {ev.h})
            && (!ev.Query? ==> Pending(hash, t, tag) <= Pending(hash, s, tag))
            && (ev.Query? ==> Pending(hash, t, tag) <= Pending(hash, s, tag) || Open(s.issues, tag) == {})
  {
  }

  lemma BoundedStep(hash: string -> string, s: State, ev: Event, group: string, bound: nat)
    requires Enabled(hash, s, ev)
    requires Bounded(hash, s, DedupLabel(hash, group), bound)
    requires |Pending(hash, Next(hash, s, ev), DedupLabel(hash, group))| <= bound
    ensures Bounded(hash, Next(hash, s, ev), DedupLabel(hash, group), bound)
  {
    var tag := DedupLabel(hash, group);
    var t := Next(hash, s, ev);
    PendingAfter(hash, s, ev, tag);
    if ev.Deliver? {
      SubsetSize(Pending(hash, t, tag), Pending(hash, s, tag));
    } else {
      OpenGrowth(hash, s, ev, group);
      hide Next, Enabled, Open, Pending, DedupLabel;
      if ev.Create? && ev.h in Pending(hash, s, tag) {
        SubsetSize(Open(t.issues, tag), Open(s.issues, tag) + {ev.id});
      } else {
        SubsetSize(Open(t.issues, tag), Open(s.issues, tag));
        if Pending(hash, t, tag) <= Pending(hash, s, tag) {
          SubsetSize(Pending(hash, t, tag), Pending(hash, s, tag));
        }
      }
    }
  }

  /** However deliveries interleave and calls fail, a label never has more open issues than it started with plus
      its pending handlers then, or than the creating handlers that ever overlapped. */
  lemma {:induction false} OpenWithinOverlap(hash: string -> string, s: State, evs: seq<Event>, group: string, bound: nat)
    requires Runs(hash, s, evs) && Bounded(hash, s, DedupLabel(hash, group), bound)
    requires OverlapAtMost(hash, s, evs, DedupLabel(hash, group), bound)
    ensures |Open(Final(hash, s, evs).issues, DedupLabel(hash, group))| <= bound
    decreases |evs|
  {
    if evs != [] {
      var t := Next(hash, s, evs[0]);
      assert OverlapAtMost(hash, t, evs[1..], DedupLabel(hash, group), bound);
      BoundedStep(hash, s, evs[0], group, bound);
      OpenWithinOverlap(hash, t, evs[1..], group, bound);
    }
  }

  /** In particular, a tracker with at most one open issue of a label keeps at most one under every interleaving in
      which no two handlers of the label are creating at the same time. */
  lemma NoOverlapNoDuplicates(hash: string -> string, issues: Issues, evs: seq<Event>, group: string)
    requires Runs(hash, State(issues, map[]), evs) && |Open(issues, DedupLabel(hash, group))| <= 1
    requires OverlapAtMost(hash, State(issues, map[]), evs, DedupLabel(hash, group), 1)
    ensures |Open(Final(hash, State(issues, map[]), evs).issues, DedupLabel(hash, group))| <= 1
  {
    assert Pending(hash, State(issues, map[]), DedupLabel(hash, group)) == {};
    OpenWithinOverlap(hash, State(issues, map[]), evs, group, 1);
  }

  // ---------------------------------------------------------------- the bound is attained

  ghost predicate Reachable(hash: string -> string, s: State) {
    exists evs :: Runs(hash, State(map[], map[]), evs) && Final(hash, State(map[], map[]), evs) == s
  }

  lemma {:induction false} Extend(hash: string -> string, s: State, evs: seq<Event>, ev: Event)
    requires Runs(hash, s, evs) && Enabled(hash, Final(hash, s, evs), ev)
    ensures Runs(hash, s, evs + [ev]) && Final(hash, s, evs + [ev]) == Next(hash, Final(hash, s, evs), ev)
    decreases |evs|
  {
    hide Enabled, Next;
    if evs == [] {
      assert evs + [ev] == [ev] && [ev][1..] == [];
      assert Runs(hash, Next(hash, s, ev), []);
    } else {
      assert (evs + [ev])[0] == evs[0] && (evs + [ev])[1..] == evs[1..] + [ev];
      Extend(hash, Next(hash, s, evs[0]), evs[1..], ev);
    }
  }

  lemma Advance(hash: string -> string, s: State, ev: Event) returns (t: State)
    requires Reachable(hash, s) && Enabled(hash, s, ev)
    ensures t == Next(hash, s, ev) && Reachable(hash, t)
  {
    hide Enabled, Next;
    var evs :| Runs(hash, State(map[], map[]), evs) && Final(hash, State(map[], map[]), evs) == s;
    Extend(hash, State(map[], map[]), evs, ev);
    t := Next(hash, s, ev);
  }

  /** n handlers that all found nothing. */
  lemma {:induction false} Crowding(hash: string -> string, a: Alert, n: nat) returns (s: State)
    requires a.firing
    ensures Reachable(hash, s) && s.issues == map[]
    ensures forall h: HandlerId :: h in s.handlers <==> h < n
    ensures forall h: HandlerId :: h in s.handlers ==> s.handlers[h] == Handler(a, Creating)
  {
    if n == 0 {
      s := State(map[], map[]);
      assert Runs(hash, s, []);
    } else {
      var before := Crowding(hash, a, n - 1);
      hide Reachable;
      var s1 := Advance(hash, before, Deliver(n - 1, a));
      s := Advance(hash, s1, Query(n - 1, None, true));
    }
  }

  function Mark(k: nat): IssueId {
    if k == 0 then "" else Mark(k - 1) + "i"
  }

  lemma {:induction false} MarksDiffer(k: nat)
    ensures |Mark(k)| == k
  {
    if k > 0 {
      MarksDiffer(k - 1);
    }
  }

  lemma CreateOpens(hash: string -> string, s: State, h: HandlerId, id: IssueId)
    requires h in s.handlers && s.handlers[h].step.Creating? && id !in s.issues
    ensures var ev, tag := Create(h, id, 0, NoFault), TagOf(hash, s.handlers[h].alert);
            && Enabled(hash, s, ev)
            && var t := Next(hash, s, ev);
            && t.issues.Keys == s.issues.Keys + {id} && Open(t.issues, tag) == Open(s.issues, tag) + {id}
            && forall g: HandlerId :: g in s.handlers && g != h ==> g in t.handlers && t.handlers[g] == s.handlers[g]
  {
    var a := s.handlers[h].alert;
    OneDedupLabel(hash, a.severity, a.capability, a.group, a.group);
    hide BuildLabels, DedupLabel;
  }

  /** k of the n have created, each its own issue. */
  lemma {:induction false} Creates(hash: string -> string, a: Alert, n: nat, k: nat) returns (s: State)
    requires a.firing && k <= n
    ensures Reachable(hash, s) && |s.issues| == k && Open(s.issues, DedupLabel(hash, a.group)) == s.issues.Keys
    ensures forall id :: id in s.issues ==> |id| < k
    ensures forall h: HandlerId :: k <= h < n ==> h in s.handlers && s.handlers[h] == Handler(a, Creating)
  {
    hide Reachable, Next, Open, DedupLabel, Enabled;
    NothingOpen(DedupLabel(hash, a.group));
    if k == 0 {
      s := Crowding(hash, a, n);
    } else {
      var before := Creates(hash, a, n, k - 1);
      MarksDiffer(k - 1);
      CreateOpens(hash, before, k - 1, Mark(k - 1));
      s := Advance(hash, before, Create(k - 1, Mark(k - 1), 0, NoFault));
      assert |s.issues.Keys| == |before.issues.Keys| + 1;
    }
  }

  lemma NothingOpen(tag: string)
    ensures Open(map[], tag) == {}
  {
  }

  /** For every n, n firings that overlap can leave n open issues of one label. */
  lemma OverlapAttained(hash: string -> string, a: Alert, n: nat)
    requires a.firing
    ensures exists s :: Reachable(hash, s) && |Open(s.issues, DedupLabel(hash, a.group))| == n
  {
    var s := Creates(hash, a, n, n);
    assert |s.issues.Keys| == |s.issues|;
  }
}
