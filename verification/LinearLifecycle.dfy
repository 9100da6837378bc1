/** The Alertmanager-to-Linear lifecycle: firing and resolved events against an issue tracker whose calls may
    fail with or without effect. The hash behind the dedup label is a parameter, `hash`. */
module LinearLifecycle {
  import opened Wrappers
  import opened Counting

  type IssueId = string

  /** `open` stands for any state but Cancelled. */
  datatype Issue = Issue(labels: seq<string>, open: bool, createdAt: int, body: string, comments: nat)

  type Issues = map<IssueId, Issue>

  /** How one API call ends: an error may hide an effect. */
  datatype Fault = NoFault | LostBefore | LostAfter

  const MARKER := "alert-managed"

  function DedupLabel(hash: string -> string, group: string): string {
    "alert:" + hash(group)
  }

  function BuildLabels(hash: string -> string, severity: string, capability: string, group: string): seq<string> {
    [MARKER, DedupLabel(hash, group), "severity:" + severity]
      + (if capability == "" then [] else ["capability:" + capability])
  }

  /** An issue the lifecycle creates bears no group's dedup label but its own. */
  lemma OneDedupLabel(hash: string -> string, severity: string, capability: string, group: string, other: string)
    ensures DedupLabel(hash, other) in BuildLabels(hash, severity, capability, group)
            <==> DedupLabel(hash, other) == DedupLabel(hash, group)
  {
    var tag := DedupLabel(hash, other);
    assert tag[0] == 'a' && tag[5] == ':';
    assert ("severity:" + severity)[0] == 's' && ("capability:" + capability)[0] == 'c' && MARKER[5] == '-';
    assert DedupLabel(hash, group) == BuildLabels(hash, severity, capability, group)[1];
  }

  /** The labels of a created issue: the marker, the group's dedup label, the severity, and the capability if there
      is one; in this order and nothing else. */
  lemma LabelsAre(hash: string -> string, severity: string, capability: string, group: string)
    ensures var labels := BuildLabels(hash, severity, capability, group);
            && labels[..3] == ["alert-managed", "alert:" + hash(group), "severity:" + severity]
            && labels[3..] == (if capability == "" then [] else ["capability:" + capability])
  {
  }

  // ---------------------------------------------------------------- choosing an issue

  predicate Bears(s: Issues, tag: string, id: IssueId) {
    id in s && tag in s[id].labels
  }

  ghost function Open(s: Issues, tag: string): set<IssueId> {
    set id | id in s && tag in s[id].labels && s[id].open
  }

  /** A newest open issue with the label, or none if there is none. Equal creation times leave it open which. */
  ghost predicate IsPick(s: Issues, tag: string, pick: Option<IssueId>) {
    if pick.None? then Open(s, tag) == {}
    else
      && pick.value in Open(s, tag)
      && forall id :: id in Open(s, tag) ==> s[id].createdAt <= s[pick.value].createdAt
  }

  /** What FindIssuesByLabel answers: every issue with the label, in any order. */
  ghost predicate IsListing(s: Issues, tag: string, found: seq<(IssueId, Issue)>) {
    && (forall i :: 0 <= i < |found| ==> Bears(s, tag, found[i].0) && found[i].1 == s[found[i].0])
    && (forall id :: Bears(s, tag, id) ==> exists i :: 0 <= i < |found| && found[i].0 == id)
  }

  function IdOf(pick: Option<(IssueId, Issue)>): Option<IssueId> {
    if pick.Some? then Some(pick.value.0) else None
  }

  /** Filter the open ones, then the head of the list in descending creation time. */
  method PickMostRecentOpen(found: seq<(IssueId, Issue)>, ghost s: Issues, ghost tag: string) returns (pick: Option<(IssueId, Issue)>)
    requires IsListing(s, tag, found)
    ensures IsPick(s, tag, IdOf(pick)) && (pick.Some? ==> s[pick.value.0] == pick.value.1)
  {
    var open: seq<(IssueId, Issue)> := [];
    for i := 0 to |found|
      invariant forall e :: e in open ==> e in found && e.1.open
      invariant forall j :: 0 <= j < i && found[j].1.open ==> found[j] in open
    {
      if found[i].1.open { open := open + [found[i]]; }
    }
    forall id | id in Open(s, tag)
      ensures (id, s[id]) in open
    {
      assert Bears(s, tag, id);
      var i :| 0 <= i < |found| && found[i].0 == id;
      assert found[i] == (id, s[id]);
    }
    if |open| == 0 { return None; }
    var best := open[0];
    for i := 1 to |open|
      invariant best in open
      invariant forall j :: 0 <= j < i ==> open[j].1.createdAt <= best.1.createdAt
    {
      if open[i].1.createdAt > best.1.createdAt { best := open[i]; }
    }
    pick := Some(best);
  }

  // ---------------------------------------------------------------- one event

  datatype Alert = Alert(firing: bool, group: string, severity: string, capability: string, body: string)

  /** What happens around one event: whether the query answers, the id and time of a created issue, the clock
      and the least age of an issue that is commented on again, and how each call ends. */
  datatype Env = Env(findOk: bool, freshId: IssueId, createdAt: int, now: int, interval: int,
                     create: Fault, update: Fault, comment: Fault, archive: Fault)

  function Created(s: Issues, id: IssueId, issue: Issue, fault: Fault): Issues {
    if fault == LostBefore then s else s[id := issue]
  }

  function Updated(s: Issues, id: IssueId, body: string, fault: Fault): Issues {
    if fault == LostBefore || id !in s then s else s[id := s[id].(body := body)]
  }

  function Commented(s: Issues, id: IssueId, fault: Fault): Issues {
    if fault == LostBefore || id !in s then s else s[id := s[id].(comments := s[id].comments + 1)]
  }

  function Archived(s: Issues, id: IssueId, fault: Fault): Issues {
    if fault == LostBefore || id !in s then s else s[id := s[id].(open := false)]
  }

  /** The firing branch once the query has answered; true means no error. */
  function Fire(hash: string -> string, s: Issues, a: Alert, pick: Option<IssueId>, e: Env): (Issues, bool) {
    if pick.None? then
      var issue := Issue(BuildLabels(hash, a.severity, a.capability, a.group), true, e.createdAt, a.body, 0);
      (Created(s, e.freshId, issue, e.create), e.create == NoFault)
    else
      var s1 := Updated(s, pick.value, a.body, e.update);
      if e.update != NoFault then (s1, false)
      else if pick.value in s && e.now - s[pick.value].createdAt >= e.interval then (Commented(s1, pick.value, e.comment), e.comment == NoFault)
      else (s1, true)
  }

  /** The resolved branch. */
  function Resolve(s: Issues, pick: Option<IssueId>, e: Env): (Issues, bool) {
    if pick.None? then (s, true)
    else
      var s1 := Commented(s, pick.value, e.comment);
      if e.comment != NoFault then (s1, false)
      else (Archived(s1, pick.value, e.archive), e.archive == NoFault)
  }

  function Handle(hash: string -> string, s: Issues, a: Alert, pick: Option<IssueId>, e: Env): (Issues, bool) {
    if !e.findOk then (s, false) else if a.firing then Fire(hash, s, a, pick, e) else Resolve(s, pick, e)
  }

  // ---------------------------------------------------------------- the procedures

  /** The tracker behind its client. */
  class LinearClient {
    var issues: Issues

    constructor (start: Issues)
      ensures issues == start
    {
      issues := start;
    }

    method FindIssuesByLabel(tag: string, ok: bool) returns (found: Result<seq<(IssueId, Issue)>>)
      ensures found.Ok? <==> ok
      ensures found.Ok? ==> IsListing(issues, tag, found.value)
    {
      if !ok { return Err("query failed"); }
      var rest := issues.Keys;
      var list: seq<(IssueId, Issue)> := [];
      while rest != {}
        invariant rest <= issues.Keys
        invariant forall i :: 0 <= i < |list| ==> Bears(issues, tag, list[i].0) && list[i].1 == issues[list[i].0]
        invariant forall id :: Bears(issues, tag, id) && id !in rest ==> exists i :: 0 <= i < |list| && list[i].0 == id
        decreases |rest|
      {
        var id :| id in rest;
        rest := rest - {id};
        if tag in issues[id].labels {
          ghost var before := list;
          list := list + [(id, issues[id])];
          assert list[|list| - 1].0 == id;
          assert forall i :: 0 <= i < |before| ==> list[i] == before[i];
        }
      }
      found := Ok(list);
    }

    method CreateIssue(id: IssueId, issue: Issue, fault: Fault) returns (ok: bool)
      modifies this
      ensures issues == Created(old(issues), id, issue, fault) && (ok <==> fault == NoFault)
    {
      if fault != LostBefore { issues := issues[id := issue]; }
      ok := fault == NoFault;
    }

    method UpdateIssue(id: IssueId, body: string, fault: Fault) returns (ok: bool)
      modifies this
      ensures issues == Updated(old(issues), id, body, fault) && (ok <==> fault == NoFault)
    {
      if fault != LostBefore && id in issues { issues := issues[id := issues[id].(body := body)]; }
      ok := fault == NoFault;
    }

    method AddComment(id: IssueId, fault: Fault) returns (ok: bool)
      modifies this
      ensures issues == Commented(old(issues), id, fault) && (ok <==> fault == NoFault)
    {
      if fault != LostBefore && id in issues { issues := issues[id := issues[id].(comments := issues[id].comments + 1)]; }
      ok := fault == NoFault;
    }

    method ArchiveIssue(id: IssueId, fault: Fault) returns (ok: bool)
      modifies this
      ensures issues == Archived(old(issues), id, fault) && (ok <==> fault == NoFault)
    {
      if fault != LostBefore && id in issues { issues := issues[id := issues[id].(open := false)]; }
      ok := fault == NoFault;
    }
  }

  class Lifecycle {
    const client: LinearClient
    const hash: string -> string

    constructor (client: LinearClient, hash: string -> string)
      ensures this.client == client && this.hash == hash
    {
      this.client, this.hash := client, hash;
    }

    method HandleFiring(a: Alert, e: Env) returns (ok: bool, ghost pick: Option<IssueId>)
      modifies client
      ensures e.findOk ==> IsPick(old(client.issues), DedupLabel(hash, a.group), pick)
      ensures (client.issues, ok) == if e.findOk then Fire(hash, old(client.issues), a, pick, e) else (old(client.issues), false)
    {
      pick := None;
      var tag := DedupLabel(hash, a.group);
      var found := client.FindIssuesByLabel(tag, e.findOk);
      if found.Err? { return false, pick; }
      var open := PickMostRecentOpen(found.value, client.issues, tag);
      pick := IdOf(open);
      if open.None? {
        var issue := Issue(BuildLabels(hash, a.severity, a.capability, a.group), true, e.createdAt, a.body, 0);
        ok := client.CreateIssue(e.freshId, issue, e.create);
        return;
      }
      ok := client.UpdateIssue(open.value.0, a.body, e.update);
      if !ok { return; }
      if e.now - open.value.1.createdAt >= e.interval {
        ok := client.AddComment(open.value.0, e.comment);
      }
    }

    method HandleResolved(a: Alert, e: Env) returns (ok: bool, ghost pick: Option<IssueId>)
      modifies client
      ensures e.findOk ==> IsPick(old(client.issues), DedupLabel(hash, a.group), pick)
      ensures (client.issues, ok) == if e.findOk then Resolve(old(client.issues), pick, e) else (old(client.issues), false)
    {
      pick := None;
      var tag := DedupLabel(hash, a.group);
      var found := client.FindIssuesByLabel(tag, e.findOk);
      if found.Err? { return false, pick; }
      var open := PickMostRecentOpen(found.value, client.issues, tag);
      pick := IdOf(open);
      if open.None? { return true, pick; }
      ok := client.AddComment(open.value.0, e.comment);
      if !ok { return; }
      ok := client.ArchiveIssue(open.value.0, e.archive);
    }
  }

  // ---------------------------------------------------------------- what one event does

  /** What an event for `group` may do to any other group's open issues: nothing, not even to their contents. */
  ghost predicate Untouched(s: Issues, t: Issues, tag: string) {
    && (forall id :: id in s && tag !in s[id].labels ==> id in t && t[id] == s[id])
    && (forall id :: id in t && id !in s ==> tag in t[id].labels)
    && (forall id :: id in s ==> id in t && t[id].labels == s[id].labels && t[id].createdAt == s[id].createdAt)
  }

  lemma TouchOne(s: Issues, t: Issues, id: IssueId, issue: Issue, tag: string)
    requires Untouched(s, t, tag) && tag in issue.labels
    requires if id in s then id in t && issue.labels == s[id].labels && issue.createdAt == s[id].createdAt else id !in t
    ensures Untouched(s, t[id := issue], tag)
  {
  }

  /** Update, comment and archive change one issue that bears the label. */
  lemma EditsTouchOne(s: Issues, t: Issues, id: IssueId, tag: string, body: string, fault: Fault)
    requires Untouched(s, t, tag) && id in s && tag in s[id].labels
    ensures Untouched(s, Updated(t, id, body, fault), tag) && Untouched(s, Commented(t, id, fault), tag)
    ensures Untouched(s, Archived(t, id, fault), tag)
  {
    assert t[id].labels == s[id].labels && t[id].createdAt == s[id].createdAt;
    hide Untouched;
    TouchOne(s, t, id, t[id].(body := body), tag);
    TouchOne(s, t, id, t[id].(comments := t[id].comments + 1), tag);
    TouchOne(s, t, id, t[id].(open := false), tag);
  }

  lemma HandleTouchesOnlyItsLabel(hash: string -> string, s: Issues, a: Alert, pick: Option<IssueId>, e: Env)
    requires e.freshId !in s && (e.findOk ==> IsPick(s, DedupLabel(hash, a.group), pick))
    ensures Untouched(s, Handle(hash, s, a, pick, e).0, DedupLabel(hash, a.group))
  {
    hide Untouched, DedupLabel, BuildLabels, IsPick, Updated, Commented, Archived;
    var tag := DedupLabel(hash, a.group);
    UntouchedAtFirst(s, tag);
    if e.findOk && pick.Some? {
      PickBears(s, tag, pick);
      EditsTouchOne(s, s, pick.value, tag, a.body, e.update);
      EditsTouchOne(s, s, pick.value, tag, a.body, e.comment);
      EditsTouchOne(s, Updated(s, pick.value, a.body, e.update), pick.value, tag, a.body, e.comment);
      EditsTouchOne(s, Commented(s, pick.value, e.comment), pick.value, tag, a.body, e.archive);
    } else if e.findOk && a.firing {
      OneDedupLabel(hash, a.severity, a.capability, a.group, a.group);
      TouchOne(s, s, e.freshId, Issue(BuildLabels(hash, a.severity, a.capability, a.group), true, e.createdAt, a.body, 0), tag);
    }
  }

  lemma UntouchedAtFirst(s: Issues, tag: string)
    ensures Untouched(s, s, tag)
  {
  }

  lemma PickBears(s: Issues, tag: string, pick: Option<IssueId>)
    requires pick.Some? && IsPick(s, tag, pick)
    ensures pick.value in s && tag in s[pick.value].labels
  {
  }

  /** The open issues of the event's own label afterwards. */
  lemma OpenAfterFiring(hash: string -> string, s: Issues, a: Alert, pick: Option<IssueId>, e: Env)
    requires e.freshId !in s && a.firing && e.findOk && IsPick(s, DedupLabel(hash, a.group), pick)
    ensures var tag := DedupLabel(hash, a.group);
            Open(Handle(hash, s, a, pick, e).0, tag)
            == if pick.None? && e.create != LostBefore then {e.freshId} else Open(s, tag)
  {
    OneDedupLabel(hash, a.severity, a.capability, a.group, a.group);
  }

  /** An event reports success exactly when every call it made was acknowledged. */
  lemma FaultsAreReported(hash: string -> string, s: Issues, a: Alert, pick: Option<IssueId>, e: Env)
    requires e.findOk ==> IsPick(s, DedupLabel(hash, a.group), pick)
    ensures Handle(hash, s, a, pick, e).1 <==>
              && e.findOk
              && (a.firing && pick.None? ==> e.create == NoFault)
              && (a.firing && pick.Some? ==>
                    e.update == NoFault && (e.now - s[pick.value].createdAt >= e.interval ==> e.comment == NoFault))
              && (!a.firing && pick.Some? ==> e.comment == NoFault && e.archive == NoFault)
  {
    hide BuildLabels, DedupLabel;
  }

  /** A created issue is open, new, labelled and carries the event's body. */
  lemma CreatedIssueIs(hash: string -> string, s: Issues, a: Alert, e: Env)
    requires e.freshId !in s && a.firing && e.findOk && e.create != LostBefore
    ensures var t := Handle(hash, s, a, None, e).0;
            && t.Keys == s.Keys + {e.freshId}
            && t[e.freshId] == Issue(BuildLabels(hash, a.severity, a.capability, a.group), true, e.createdAt, a.body, 0)
  {
  }

  /** A found issue is refreshed: its body is the event's unless the update never arrived, and after an
      acknowledged update it is commented on exactly when it has reached the least age. */
  lemma FiringRefreshes(hash: string -> string, s: Issues, a: Alert, pick: Option<IssueId>, e: Env)
    requires a.firing && e.findOk && IsPick(s, DedupLabel(hash, a.group), pick) && pick.Some?
    ensures var t := Handle(hash, s, a, pick, e).0;
            && pick.value in t
            && t[pick.value].body == (if e.update == LostBefore then s[pick.value].body else a.body)
            && t[pick.value].comments == s[pick.value].comments
               + (if e.update == NoFault && e.now - s[pick.value].createdAt >= e.interval && e.comment != LostBefore then 1 else 0)
  {
  }

  lemma OpenAfterResolved(hash: string -> string, s: Issues, a: Alert, pick: Option<IssueId>, e: Env)
    requires !a.firing && e.findOk && IsPick(s, DedupLabel(hash, a.group), pick)
    ensures var tag := DedupLabel(hash, a.group);
            Open(Handle(hash, s, a, pick, e).0, tag)
            == if pick.Some? && e.comment == NoFault && e.archive != LostBefore then Open(s, tag) - {pick.value} else Open(s, tag)
    ensures pick.Some? && e.comment == NoFault && e.archive != LostBefore ==>
              Handle(hash, s, a, pick, e).0 == s[pick.value := s[pick.value].(open := false, comments := s[pick.value].comments + 1)]
    ensures pick.Some? && e.comment != NoFault ==>
              Handle(hash, s, a, pick, e).0 == if e.comment == LostBefore then s else s[pick.value := s[pick.value].(comments := s[pick.value].comments + 1)]
  {
  }

  lemma OtherLabelsOpen(hash: string -> string, s: Issues, a: Alert, pick: Option<IssueId>, e: Env, other: string)
    requires e.freshId !in s && (e.findOk ==> IsPick(s, DedupLabel(hash, a.group), pick))
    requires DedupLabel(hash, other) != DedupLabel(hash, a.group)
    ensures Open(Handle(hash, s, a, pick, e).0, DedupLabel(hash, other)) <= Open(s, DedupLabel(hash, other))
  {
    OneDedupLabel(hash, a.severity, a.capability, a.group, other);
  }

  // ---------------------------------------------------------------- event sequences

  datatype Event = Event(alert: Alert, pick: Option<IssueId>, env: Env)

  ghost predicate StepOk(hash: string -> string, s: Issues, ev: Event) {
    ev.env.freshId !in s && (ev.env.findOk ==> IsPick(s, DedupLabel(hash, ev.alert.group), ev.pick))
  }

  function After(hash: string -> string, s: Issues, ev: Event): Issues {
    Handle(hash, s, ev.alert, ev.pick, ev.env).0
  }

  ghost predicate Runs(hash: string -> string, s: Issues, evs: seq<Event>)
    decreases |evs|
  {
    evs == [] || (StepOk(hash, s, evs[0]) && Runs(hash, After(hash, s, evs[0]), evs[1..]))
  }

  function Final(hash: string -> string, s: Issues, evs: seq<Event>): Issues
    decreases |evs|
  {
    if evs == [] then s else Final(hash, After(hash, s, evs[0]), evs[1..])
  }

  ghost predicate AtMostOneOpen(hash: string -> string, s: Issues) {
    forall group :: |Open(s, DedupLabel(hash, group))| <= 1
  }

  lemma AtMostOneOpenStep(hash: string -> string, s: Issues, ev: Event)
    requires AtMostOneOpen(hash, s) && StepOk(hash, s, ev)
    ensures AtMostOneOpen(hash, After(hash, s, ev))
  {
    forall group
      ensures |Open(After(hash, s, ev), DedupLabel(hash, group))| <= 1
    {
      if !ev.env.findOk {
      } else if DedupLabel(hash, group) != DedupLabel(hash, ev.alert.group) {
        OtherLabelsOpen(hash, s, ev.alert, ev.pick, ev.env, group);
        SubsetSize(Open(After(hash, s, ev), DedupLabel(hash, group)), Open(s, DedupLabel(hash, group)));
      } else if ev.alert.firing {
        OpenAfterFiring(hash, s, ev.alert, ev.pick, ev.env);
      } else {
        OpenAfterResolved(hash, s, ev.alert, ev.pick, ev.env);
        SubsetSize(Open(After(hash, s, ev), DedupLabel(hash, group)), Open(s, DedupLabel(hash, group)));
      }
    }
  }

  // ---------------------------------------------------------------- main results

  /** Processed one at a time, in any order, with repeats and with calls failing anywhere, events leave at most
      one open issue for every dedup label. */
  lemma {:induction false} NeverTwoOpen(hash: string -> string, s: Issues, evs: seq<Event>)
    requires AtMostOneOpen(hash, s) && Runs(hash, s, evs)
    ensures AtMostOneOpen(hash, Final(hash, s, evs))
    decreases |evs|
  {
    if evs != [] {
      AtMostOneOpenStep(hash, s, evs[0]);
      NeverTwoOpen(hash, After(hash, s, evs[0]), evs[1..]);
    }
  }

  /** A firing that reports success leaves exactly one open issue, a resolution none. */
  lemma SuccessSettles(hash: string -> string, s: Issues, ev: Event)
    requires AtMostOneOpen(hash, s) && StepOk(hash, s, ev) && Handle(hash, s, ev.alert, ev.pick, ev.env).1
    ensures |Open(After(hash, s, ev), DedupLabel(hash, ev.alert.group))| == if ev.alert.firing then 1 else 0
    ensures ev.alert.firing ==> forall id :: id in Open(After(hash, s, ev), DedupLabel(hash, ev.alert.group)) ==>
              After(hash, s, ev)[id].body == ev.alert.body
  {
    hide BuildLabels, DedupLabel, Updated, Commented, Archived;
    var open := Open(s, DedupLabel(hash, ev.alert.group));
    assert |open| <= 1;
    if ev.pick.Some? {
      assert open == {ev.pick.value} + (open - {ev.pick.value});
    }
    if ev.alert.firing {
      OpenAfterFiring(hash, s, ev.alert, ev.pick, ev.env);
      if ev.pick.Some? {
        FiringRefreshes(hash, s, ev.alert, ev.pick, ev.env);
      }
    } else {
      OpenAfterResolved(hash, s, ev.alert, ev.pick, ev.env);
    }
  }

  /** Issues without any of the events' labels never change. */
  lemma {:induction false} StrangersUnchanged(hash: string -> string, s: Issues, evs: seq<Event>, id: IssueId)
    requires Runs(hash, s, evs) && id in s
    requires forall i :: 0 <= i < |evs| ==> DedupLabel(hash, evs[i].alert.group) !in s[id].labels
    ensures id in Final(hash, s, evs) && Final(hash, s, evs)[id] == s[id]
    decreases |evs|
  {
    if evs != [] {
      HandleTouchesOnlyItsLabel(hash, s, evs[0].alert, evs[0].pick, evs[0].env);
      StrangersUnchanged(hash, After(hash, s, evs[0]), evs[1..], id);
    }
  }

  /** Every event is a resolution of this group that reported success. */
  ghost predicate ResolvedOk(hash: string -> string, s: Issues, evs: seq<Event>, group: string)
    decreases |evs|
  {
    evs == [] ||
      (&& !evs[0].alert.firing && evs[0].alert.group == group && Handle(hash, s, evs[0].alert, evs[0].pick, evs[0].env).1
       && ResolvedOk(hash, After(hash, s, evs[0]), evs[1..], group))
  }

  /** Duplicates drain: each successful resolution closes one newest open issue, so n of them leave n fewer,
      and as many as there were leave none. */
  lemma {:induction false} DuplicatesDrain(hash: string -> string, s: Issues, evs: seq<Event>, group: string)
    requires Runs(hash, s, evs) && ResolvedOk(hash, s, evs, group)
    ensures var tag := DedupLabel(hash, group);
            && Open(Final(hash, s, evs), tag) <= Open(s, tag)
            && |Open(Final(hash, s, evs), tag)| == (if |evs| <= |Open(s, tag)| then |Open(s, tag)| - |evs| else 0)
            && (forall gone, kept :: gone in Open(s, tag) - Open(Final(hash, s, evs), tag) && kept in Open(Final(hash, s, evs), tag)
                  ==> s[kept].createdAt <= s[gone].createdAt)
    decreases |evs|
  {
    if evs != [] {
      var tag := DedupLabel(hash, group);
      var t := After(hash, s, evs[0]);
      OpenAfterResolved(hash, s, evs[0].alert, evs[0].pick, evs[0].env);
      HandleTouchesOnlyItsLabel(hash, s, evs[0].alert, evs[0].pick, evs[0].env);
      if evs[0].pick.Some? {
        assert Open(s, tag) == Open(t, tag) + {evs[0].pick.value};
      }
      DuplicatesDrain(hash, t, evs[1..], group);
    }
  }

  /** Why duplicates exist at all: two handlers that both queried before either created. */
  lemma RacingFirings(hash: string -> string, s: Issues, a: Alert, e: Env, f: Env)
    requires IsPick(s, DedupLabel(hash, a.group), None) && e.freshId !in s && f.freshId !in s && e.freshId != f.freshId
    requires e.create == NoFault && f.create == NoFault
    ensures var t := Fire(hash, Fire(hash, s, a, None, e).0, a, None, f).0;
            Open(t, DedupLabel(hash, a.group)) == {e.freshId, f.freshId}
  {
    OneDedupLabel(hash, a.severity, a.capability, a.group, a.group);
  }
}
