/** EnsureLabelByName: query, create, query again. Any number of calls interleave against a server that allows
    one label per team and name; requests and responses may be lost. */
module LinearLabels {
  import opened Wrappers

  type LabelId = string
  type CallId = nat

  datatype Pair = Pair(team: string, name: string)

  type Labels = map<LabelId, Pair>

  datatype Pc = Querying | Creating | Requerying | Done(id: Option<LabelId>)

  datatype Call = Call(pair: Pair, pc: Pc)

  datatype State = State(labels: Labels, calls: map<CallId, Call>)

  /** How a create request fares: refused by the server is not an answer here, it follows from the labels. */
  datatype CreateAnswer = Acknowledged | LostBefore | LostAfter | NotSuccess

  /** `node` is the first node of a non-empty query answer, `id` the server's choice for a new label. */
  datatype Event =
    | Invoke(c: CallId, pair: Pair)
    | Query(c: CallId, node: Option<LabelId>, lost: bool)
    | Create(c: CallId, id: LabelId, answer: CreateAnswer)
    | Outsider(id: LabelId, pair: Pair)

  predicate Exists(labels: Labels, pair: Pair) {
    pair in labels.Values
  }

  /** What a query may answer. */
  predicate Answers(labels: Labels, pair: Pair, node: Option<LabelId>) {
    if node.Some? then node.value in labels && labels[node.value] == pair else !Exists(labels, pair)
  }

  predicate Enabled(s: State, ev: Event) {
    match ev
    case Invoke(c, _) => c !in s.calls
    case Query(c, node, lost) =>
      c in s.calls && (s.calls[c].pc.Querying? || s.calls[c].pc.Requerying?) && (!lost ==> Answers(s.labels, s.calls[c].pair, node))
    case Create(c, id, _) => c in s.calls && s.calls[c].pc.Creating? && id !in s.labels
    case Outsider(id, pair) => id !in s.labels && !Exists(s.labels, pair)
  }

  /** After the query: found, missing, or failed. Only the first query goes on to create. */
  function AfterQuery(pc: Pc, node: Option<LabelId>, lost: bool): Pc {
    if lost then Done(None)
    else if node.Some? then Done(node)
    else if pc.Querying? then Creating
    else Done(None)
  }

  function Next(s: State, ev: Event): State
    requires Enabled(s, ev)
  {
    match ev
    case Invoke(c, pair) => s.(calls := s.calls[c := Call(pair, Querying)])
    case Query(c, node, lost) => s.(calls := s.calls[c := s.calls[c].(pc := AfterQuery(s.calls[c].pc, node, lost))])
    case Create(c, id, answer) =>
      var call := s.calls[c];
      var created := !Exists(s.labels, call.pair) && (answer == Acknowledged || answer == LostAfter);
      var pc := if answer == NotSuccess then Done(None)
                else if answer == Acknowledged && created then Done(Some(id))
                else Requerying;
      State(if created then s.labels[id := call.pair] else s.labels, s.calls[c := call.(pc := pc)])
    case Outsider(id, pair) => s.(labels := s.labels[id := pair])
  }

  predicate Runs(s: State, evs: seq<Event>)
    decreases |evs|
  {
    evs == [] || (Enabled(s, evs[0]) && Runs(Next(s, evs[0]), evs[1..]))
  }

  function Final(s: State, evs: seq<Event>): State
    requires Runs(s, evs)
    decreases |evs|
  {
    if evs == [] then s else Final(Next(s, evs[0]), evs[1..])
  }

  /** What a create does, case by case: success=false ends the call without a label; a new pair gets the server's
      label, known at once if the response arrives; every other error leads to the second query. */
  lemma CreateTable(s: State, c: CallId, id: LabelId, answer: CreateAnswer)
    requires Enabled(s, Create(c, id, answer))
    ensures var t, pair := Next(s, Create(c, id, answer)), s.calls[c].pair;
            && t.calls[c] == s.calls[c].(pc := if answer == NotSuccess then Done(None)
                                               else if answer == Acknowledged && !Exists(s.labels, pair) then Done(Some(id))
                                               else Requerying)
            && t.labels == (if !Exists(s.labels, pair) && (answer == Acknowledged || answer == LostAfter) then s.labels[id := pair] else s.labels)
  {
  }

  /** What a query does: a lost answer ends the call in failure, a found label in success; a missing one is created
      after the first query and given up after the second. */
  lemma QueryTable(s: State, c: CallId, node: Option<LabelId>, lost: bool)
    requires Enabled(s, Query(c, node, lost))
    ensures var t := Next(s, Query(c, node, lost));
            && t.labels == s.labels
            && t.calls[c].pc == (if lost then Done(None) else if node.Some? then Done(node)
                                 else if s.calls[c].pc.Querying? then Creating else Done(None))
            && (!lost && node.Some? ==> node.value in s.labels && s.labels[node.value] == s.calls[c].pair)
            && (!lost && node.None? ==> forall id :: id in s.labels ==> s.labels[id] != s.calls[c].pair)
  {
  }

  // ---------------------------------------------------------------- the invariant

  /** At most one label per team and name. */
  ghost predicate Unique(labels: Labels) {
    forall a, b :: a in labels && b in labels && labels[a] == labels[b] ==> a == b
  }

  ghost predicate Inv(s: State) {
    && Unique(s.labels)
    && forall c :: c in s.calls && s.calls[c].pc.Done? && s.calls[c].pc.id.Some? ==>
         s.calls[c].pc.id.value in s.labels && s.labels[s.calls[c].pc.id.value] == s.calls[c].pair
  }

  lemma InvStep(s: State, ev: Event)
    requires Inv(s) && Enabled(s, ev)
    ensures Inv(Next(s, ev))
  {
    if ev.Create? && ev.answer != NotSuccess {
      CreateKeepsUnique(s, ev);
    }
  }

  lemma CreateKeepsUnique(s: State, ev: Event)
    requires Unique(s.labels) && Enabled(s, ev) && ev.Create?
    ensures Unique(Next(s, ev).labels)
  {
  }

  lemma {:induction false} InvAlong(s: State, evs: seq<Event>)
    requires Inv(s) && Runs(s, evs)
    ensures Inv(Final(s, evs))
    decreases |evs|
  {
    if evs != [] {
      InvStep(s, evs[0]);
      InvAlong(Next(s, evs[0]), evs[1..]);
    }
  }

  // ---------------------------------------------------------------- main results

  function Begin(labels: Labels): State {
    State(labels, map[])
  }

  /** In every interleaving, with any losses: no pair ever has two labels, every successful call returns a label
      of its own pair, and all successful calls for one pair return the same one. */
  lemma SuccessfulCallsAgree(labels: Labels, evs: seq<Event>)
    requires Unique(labels) && Runs(Begin(labels), evs)
    ensures var s := Final(Begin(labels), evs);
      && Unique(s.labels)
      && (forall c :: c in s.calls && s.calls[c].pc.Done? && s.calls[c].pc.id.Some? ==>
            s.calls[c].pc.id.value in s.labels && s.labels[s.calls[c].pc.id.value] == s.calls[c].pair)
      && (forall c, d :: c in s.calls && d in s.calls && s.calls[c].pair == s.calls[d].pair
            && s.calls[c].pc.Done? && s.calls[d].pc.Done? && s.calls[c].pc.id.Some? && s.calls[d].pc.id.Some?
            ==> s.calls[c].pc.id == s.calls[d].pc.id)
  {
    InvAlong(Begin(labels), evs);
  }

  /** No request or response is lost and no create answers success=false. */
  predicate Faultless(ev: Event) {
    && (ev.Query? ==> !ev.lost)
    && (ev.Create? ==> ev.answer == Acknowledged)
  }

  /** A call that queries again does so because its label exists. */
  ghost predicate NoneFailed(s: State) {
    forall c :: c in s.calls ==>
      && (s.calls[c].pc.Requerying? ==> Exists(s.labels, s.calls[c].pair))
      && (s.calls[c].pc.Done? ==> s.calls[c].pc.id.Some?)
  }

  lemma LabelsStay(s: State, ev: Event)
    requires Enabled(s, ev)
    ensures forall pair :: Exists(s.labels, pair) ==> Exists(Next(s, ev).labels, pair)
  {
    forall pair | Exists(s.labels, pair)
      ensures Exists(Next(s, ev).labels, pair)
    {
      var id :| id in s.labels && s.labels[id] == pair;
      assert id in Next(s, ev).labels && Next(s, ev).labels[id] == pair;
    }
  }

  /** Without faults every call that ends succeeds, however the calls race. */
  lemma {:induction false} FaultlessCallsSucceed(s: State, evs: seq<Event>)
    requires Runs(s, evs) && NoneFailed(s) && forall i :: 0 <= i < |evs| ==> Faultless(evs[i])
    ensures NoneFailed(Final(s, evs))
    decreases |evs|
  {
    if evs != [] {
      LabelsStay(s, evs[0]);
      assert Faultless(evs[0]);
      FaultlessCallsSucceed(Next(s, evs[0]), evs[1..]);
    }
  }

  /** A created label whose response was lost is found by the second query. */
  lemma LostResponseIsHealed(s: State, c: CallId, id: LabelId, node: Option<LabelId>)
    requires Unique(s.labels) && Enabled(s, Create(c, id, LostAfter)) && !Exists(s.labels, s.calls[c].pair)
    requires Enabled(Next(s, Create(c, id, LostAfter)), Query(c, node, false))
    ensures Next(Next(s, Create(c, id, LostAfter)), Query(c, node, false)).calls[c].pc == Done(Some(id))
  {
    var t := Next(s, Create(c, id, LostAfter));
    CreateKeepsUnique(s, Create(c, id, LostAfter));
    assert id in t.labels && t.labels[id] == s.calls[c].pair;
  }

  // ---------------------------------------------------------------- the procedures

  lemma {:induction false} Extend(s: State, evs: seq<Event>, ev: Event)
    requires Runs(s, evs) && Enabled(Final(s, evs), ev)
    ensures Runs(s, evs + [ev]) && Final(s, evs + [ev]) == Next(Final(s, evs), ev)
    decreases |evs|
  {
    if evs == [] {
      assert evs + [ev] == [ev] && [ev][1..] == [];
      assert Runs(Next(s, ev), []);
    } else {
      assert (evs + [ev])[0] == evs[0] && (evs + [ev])[1..] == evs[1..] + [ev];
      Extend(Next(s, evs[0]), evs[1..], ev);
    }
  }

  ghost predicate Reachable(labels: Labels, s: State) {
    exists evs :: Runs(Begin(labels), evs) && Final(Begin(labels), evs) == s
  }

  lemma Step(labels: Labels, s: State, ev: Event) returns (t: State)
    requires Reachable(labels, s) && Enabled(s, ev)
    ensures t == Next(s, ev) && Reachable(labels, t)
  {
    var evs :| Runs(Begin(labels), evs) && Final(Begin(labels), evs) == s;
    Extend(Begin(labels), evs, ev);
    t := Next(s, ev);
  }

  /** How the network treats one call, and the id the server would give a new label. */
  datatype Net = Net(queryLost: bool, create: CreateAnswer, freshId: LabelId, requeryLost: bool)

  class LabelClient {
    ghost const start: Labels
    var labels: Labels
    ghost var calls: map<CallId, Call>

    ghost predicate Valid()
      reads this
    {
      Unique(start) && Reachable(start, State(labels, calls))
    }

    constructor (start: Labels)
      requires Unique(start)
      ensures Valid() && labels == start && calls == map[]
    {
      this.start, labels, calls := start, start, map[];
      new;
      assert Runs(Begin(start), []);
    }

    /** The nodes of the query answer: the first, if there is any. */
    method FindLabel(pair: Pair) returns (node: Option<LabelId>)
      ensures Answers(labels, pair, node)
    {
      node := None;
      var rest := labels.Keys;
      while rest != {} && node.None?
        invariant node.None? ==> forall id :: id in labels && id !in rest ==> labels[id] != pair
        invariant node.Some? ==> node.value in labels && labels[node.value] == pair
        decreases |rest|, node.None?
      {
        var id :| id in rest;
        rest := rest - {id};
        if id in labels && labels[id] == pair { node := Some(id); }
      }
    }

    ghost method Book(ev: Event, before: Labels)
      requires Reachable(start, State(before, calls)) && Unique(start) && Enabled(State(before, calls), ev)
      requires labels == Next(State(before, calls), ev).labels
      modifies this`calls
      ensures Valid() && calls == Next(State(before, old(calls)), ev).calls
    {
      hide Next, Enabled, Reachable;
      var t := Step(start, State(before, calls), ev);
      calls := t.calls;
    }

    /** The label is missing: create it and, on an error, query again. */
    method CreateLabel(c: CallId, pair: Pair, net: Net) returns (id: Option<LabelId>)
      requires Valid() && c in calls && calls[c] == Call(pair, Creating) && !Exists(labels, pair) && net.freshId !in labels
      modifies this
      ensures Valid() && c in calls && calls - {c} == old(calls) - {c} && calls[c] == Call(pair, Done(id))
      ensures id == if net.create == Acknowledged || (net.create == LostAfter && !net.requeryLost) then Some(net.freshId) else None
      ensures labels == if net.create == Acknowledged || net.create == LostAfter then old(labels)[net.freshId := pair] else old(labels)
    {
      hide Reachable;
      ghost var before := labels;
      if net.create == Acknowledged || net.create == LostAfter {
        labels := labels[net.freshId := pair];
        assert labels[net.freshId] == pair && Exists(labels, pair);
      }
      Book(Create(c, net.freshId, net.create), before);
      if net.create == Acknowledged { return Some(net.freshId); }
      if net.create == NotSuccess { return None; }
      var node := FindLabel(pair);
      assert node.Some? ==> node.value == net.freshId;
      Book(Query(c, node, net.requeryLost), labels);
      id := if net.requeryLost then None else node;
    }

    /** One call, undisturbed, from whatever state the others have left. */
    method EnsureLabelByName(c: CallId, pair: Pair, net: Net) returns (id: Option<LabelId>)
      requires Valid() && c !in calls && net.freshId !in labels
      modifies this
      ensures Valid() && c in calls && calls - {c} == old(calls) - {c} && calls[c] == Call(pair, Done(id))
      ensures id.Some? ==> id.value in labels && labels[id.value] == pair
      ensures id.Some? <==>
                && !net.queryLost
                && (Exists(old(labels), pair) || net.create == Acknowledged || (net.create == LostAfter && !net.requeryLost))
      ensures labels == if !net.queryLost && !Exists(old(labels), pair) && (net.create == Acknowledged || net.create == LostAfter)
                        then old(labels)[net.freshId := pair] else old(labels)
    {
      hide Reachable;
      Book(Invoke(c, pair), labels);
      var node := FindLabel(pair);
      Book(Query(c, node, net.queryLost), labels);
      if net.queryLost { return None; }
      if node.Some? { return node; }
      id := CreateLabel(c, pair, net);
    }

    /** The label loop of CreateIssue: every name becomes the id of a label of that name, or the first failure
        ends it. Call ids c, c+1, ... are unused. */
    method ResolveLabels(c: CallId, team: string, names: seq<string>, nets: seq<Net>) returns (ids: Option<seq<LabelId>>)
      requires Valid() && |nets| == |names| && forall d :: d in calls ==> d < c
      requires forall i, j :: 0 <= i < j < |nets| ==> nets[i].freshId != nets[j].freshId
      requires forall i :: 0 <= i < |nets| ==> nets[i].freshId !in labels
      modifies this
      ensures Valid()
      ensures ids.Some? ==> |ids.value| == |names|
      ensures ids.Some? ==> forall i :: 0 <= i < |names| ==> ids.value[i] in labels && labels[ids.value[i]] == Pair(team, names[i])
      ensures (forall i :: 0 <= i < |nets| ==> !nets[i].queryLost && nets[i].create == Acknowledged) ==> ids.Some?
    {
      var out: seq<LabelId> := [];
      for i := 0 to |names|
        invariant Valid() && |out| == i && forall d :: d in calls ==> d < c + i
        invariant forall j :: 0 <= j < i ==> out[j] in labels && labels[out[j]] == Pair(team, names[j])
        invariant forall j :: i <= j < |nets| ==> nets[j].freshId !in labels
      {
        hide Reachable;
        ghost var before, known := labels, calls;
        var id := EnsureLabelByName(c + i, Pair(team, names[i]), nets[i]);
        if id.None? { return None; }
        assert forall d :: d in calls && d != c + i ==> d in known - {c + i};
        out := out + [id.value];
      }
      ids := Some(out);
    }
  }
}
