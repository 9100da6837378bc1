/** Capability identifiers "adapter.name@version": validation, printing, the two parsers that split the
    printed form back (the Go receipt decoder and the k6 helper), and the registry keyed by it. */
module Capabilities {
  import opened Wrappers

  predicate IsLower(c: char) { 'a' <= c <= 'z' }

  predicate IsDigit(c: char) { '0' <= c <= '9' }

  predicate IsAdapterChar(c: char) { IsLower(c) || IsDigit(c) || c == '_' }

  predicate IsNameChar(c: char) { IsAdapterChar(c) || c == '.' }

  /** ^[a-z][a-z0-9_]{1,31}$ */
  predicate ValidAdapterId(s: string) {
    2 <= |s| <= 32 && IsLower(s[0]) && forall i :: 1 <= i < |s| ==> IsAdapterChar(s[i])
  }

  /** ^[a-z][a-z0-9_.]{1,63}$ */
  predicate ValidName(s: string) {
    2 <= |s| <= 64 && IsLower(s[0]) && forall i :: 1 <= i < |s| ==> IsNameChar(s[i])
  }

  /** ^v[0-9]+$ */
  predicate ValidVersion(s: string) {
    2 <= |s| && s[0] == 'v' && forall i :: 1 <= i < |s| ==> IsDigit(s[i])
  }

  /** The character classes, spelled out. */
  lemma CharacterClasses(c: char)
    ensures IsLower(c) <==> c in "abcdefghijklmnopqrstuvwxyz"
    ensures IsDigit(c) <==> c in "0123456789"
    ensures IsAdapterChar(c) <==> IsLower(c) || IsDigit(c) || c == '_'
    ensures IsNameChar(c) <==> IsAdapterChar(c) || c == '.'
  {
    var letters, digits := "abcdefghijklmnopqrstuvwxyz", "0123456789";
    if IsLower(c) {
      assert letters[c as int - 97] == c;
    }
    if IsDigit(c) {
      assert digits[c as int - 48] == c;
    }
  }

  /** The lengths: 2 to 32 for an adapter id, 2 to 64 for a name, and at least one digit for a version. */
  lemma LengthsAre(s: string, digits: string)
    requires forall i :: 0 <= i < |s| ==> s[i] == 'a'
    requires forall i :: 0 <= i < |digits| ==> digits[i] == '7'
    ensures ValidAdapterId(s) <==> 2 <= |s| <= 32
    ensures ValidName(s) <==> 2 <= |s| <= 64
    ensures ValidVersion("v" + digits) <==> digits != ""
    ensures !ValidVersion(s)
  {
  }

  /** A name starts with a letter and may hold dots; an adapter id may not. */
  lemma PatternsDiffer()
    ensures ValidName("worktree.create") && !ValidAdapterId("worktree.create")
    ensures !ValidName("_x") && !ValidName("9x") && !ValidName(".x") && !ValidName("Ab") && !ValidAdapterId("a-")
    ensures !ValidVersion("1") && !ValidVersion("v1.0") && !ValidVersion("V1")
  {
    assert "worktree.create"[8] == '.' && "_x"[0] == '_' && "9x"[0] == '9' && ".x"[0] == '.' && "Ab"[0] == 'A' && "a-"[1] == '-';
    assert "v1.0"[2] == '.' && "V1"[0] == 'V';
  }

  datatype Triple = Triple(adapter: string, name: string, version: string) {
    predicate Valid() {
      ValidAdapterId(adapter) && ValidName(name) && ValidVersion(version)
    }

    function Canonical(): string {
      adapter + "." + name + "@" + version
    }
  }

  datatype Capability = Capability(id: Triple, allowsPartial: bool, defaultTimeout: int) {
    predicate Valid() {
      id.Valid() && defaultTimeout > 0
    }
  }

  /** NewCapability; the adapter id was validated by its own constructor. */
  function NewCapability(adapter: string, name: string, version: string, allowsPartial: bool, def: int)
    : (r: Result<Capability>)
    ensures r.Ok? <==> ValidName(name) && ValidVersion(version) && def > 0
    ensures r.Ok? && ValidAdapterId(adapter) ==> r.value.Valid()
    ensures r.Ok? ==> r.value == Capability(Triple(adapter, name, version), allowsPartial, def)
  {
    if !ValidName(name) then Err("invalid capability name")
    else if !ValidVersion(version) then Err("invalid capability version")
    else if def <= 0 then Err("capability default timeout must be > 0")
    else Ok(Capability(Triple(adapter, name, version), allowsPartial, def))
  }

  // ---------------------------------------------------------------- searching

  /** First index of `c`, or -1. */
  function IndexOf(s: string, c: char): (r: int)
    ensures -1 <= r < |s|
    ensures r >= 0 ==> s[r] == c
    ensures forall i :: 0 <= i < (if r < 0 then |s| else r) ==> s[i] != c
  {
    if s == "" then -1
    else if s[0] == c then 0
    else
      var r := IndexOf(s[1..], c);
      assert forall i :: 1 <= i < |s| ==> s[i] == s[1..][i - 1];
      if r < 0 then -1 else r + 1
  }

  /** Last index of `c`, or -1. */
  function LastIndexOf(s: string, c: char): (r: int)
    ensures -1 <= r < |s|
    ensures r >= 0 ==> s[r] == c
    ensures forall i :: r < i < |s| ==> s[i] != c
  {
    if s == "" then -1
    else if s[|s| - 1] == c then |s| - 1
    else LastIndexOf(s[..|s| - 1], c)
  }

  /** The first occurrence is at `n` when `c` is there and nowhere before. */
  lemma IndexOfIs(s: string, c: char, n: nat)
    requires n < |s| && s[n] == c
    requires forall i :: 0 <= i < n ==> s[i] != c
    ensures IndexOf(s, c) == n
  {
  }

  lemma LastIndexOfIs(s: string, c: char, n: nat)
    requires n < |s| && s[n] == c
    requires forall i :: n < i < |s| ==> s[i] != c
    ensures LastIndexOf(s, c) == n
  {
  }

  // ---------------------------------------------------------------- parsing

  /** splitCapability in the k6 helpers: last '@', then first '.', neither at index 0. */
  function Split(canonical: string): Result<Triple> {
    var at := LastIndexOf(canonical, '@');
    if at <= 0 then Err("missing @version")
    else
      var path := canonical[..at];
      var dot := IndexOf(path, '.');
      if dot <= 0 then Err("missing .name")
      else Ok(Triple(path[..dot], path[dot + 1..], canonical[at + 1..]))
  }

  /** The capability part of ExecutionHandle.UnmarshalJSON: the adapter comes from its own wire field,
      name and version from the canonical string; timeout and partiality are not on the wire. */
  function DecodeHandleCapability(adapter: string, canonical: string): Result<Capability> {
    if !ValidAdapterId(adapter) then Err("adapter_id")
    else
      var at := LastIndexOf(canonical, '@');
      if at < 0 then Err("capability missing @version")
      else
        var path := canonical[..at];
        var dot := IndexOf(path, '.');
        if dot < 0 then Err("capability missing adapter.name")
        else NewCapability(adapter, path[dot + 1..], canonical[at + 1..], false, 1_000_000_000)
  }

  /** The splitter accepts exactly the strings with a non-empty adapter before the first dot, which comes before the
      last '@', and gives the three parts. */
  lemma SplitAcceptsIff(s: string)
    ensures Split(s).Ok? <==> exists t: Triple :: t.adapter != "" && '.' !in t.adapter && '@' !in t.version && t.Canonical() == s
  {
    if Split(s).Ok? {
      var at := LastIndexOf(s, '@');
      var path := s[..at];
      var dot := IndexOf(path, '.');
      var t := Split(s).value;
      PrintAfterSplit(s);
      assert '.' !in t.adapter && '@' !in t.version;
    }
    if t: Triple :| t.adapter != "" && '.' !in t.adapter && '@' !in t.version && t.Canonical() == s {
      LooseParts(t);
      PathParts(t.adapter + "." + t.name, t.adapter, t.name);
      SplitOf(s, t.adapter + "." + t.name, t, |t.adapter| + 1 + |t.name|);
    }
  }

  lemma LooseParts(t: Triple)
    requires '.' !in t.adapter && '@' !in t.version
    ensures var s := t.Canonical();
            && LastIndexOf(s, '@') == |t.adapter| + 1 + |t.name|
            && s[..|t.adapter| + 1 + |t.name|] == t.adapter + "." + t.name
            && s[|t.adapter| + 1 + |t.name| + 1..] == t.version
            && IndexOf(t.adapter + "." + t.name, '.') == |t.adapter|
  {
    var path := t.adapter + "." + t.name;
    var s := path + "@" + t.version;
    assert s == t.Canonical();
    assert forall i :: |path| < i < |s| ==> s[i] == t.version[i - |path| - 1];
    LastIndexOfIs(s, '@', |path|);
    IndexOfIs(path, '.', |t.adapter|);
  }

  lemma CanonicalParts(t: Triple)
    requires t.Valid()
    ensures var s := t.Canonical();
            && LastIndexOf(s, '@') == |t.adapter| + 1 + |t.name|
            && s[..|t.adapter| + 1 + |t.name|] == t.adapter + "." + t.name
            && s[|t.adapter| + 1 + |t.name| + 1..] == t.version
            && IndexOf(t.adapter + "." + t.name, '.') == |t.adapter|
  {
    LooseParts(t);
  }

  lemma PathParts(path: string, adapter: string, name: string)
    requires path == adapter + "." + name
    ensures path[..|adapter|] == adapter && path[|adapter| + 1..] == name
  {
  }

  lemma SplitOf(s: string, path: string, t: Triple, at: nat)
    requires LastIndexOf(s, '@') == at > 0 && s[..at] == path && s[at + 1..] == t.version
    requires IndexOf(path, '.') == |t.adapter| > 0 && path[..|t.adapter|] == t.adapter && path[|t.adapter| + 1..] == t.name
    ensures Split(s) == Ok(t)
  {
    hide LastIndexOf, IndexOf;
  }

  /** Printing then splitting is the identity on every valid triple, dotted names included. */
  lemma SplitAfterPrint(t: Triple)
    requires t.Valid()
    ensures Split(t.Canonical()) == Ok(t)
  {
    CanonicalParts(t);
    PathParts(t.adapter + "." + t.name, t.adapter, t.name);
    hide LastIndexOf, IndexOf, Triple.Canonical, ValidAdapterId, ValidName, ValidVersion, Split;
    SplitOf(t.Canonical(), t.adapter + "." + t.name, t, |t.adapter| + 1 + |t.name|);
  }

  /** Splitting then printing is the identity on every string the splitter accepts. */
  lemma PrintAfterSplit(s: string)
    requires Split(s).Ok?
    ensures Split(s).value.Canonical() == s
  {
    var at := LastIndexOf(s, '@');
    var path := s[..at];
    var dot := IndexOf(path, '.');
    assert path == path[..dot] + "." + path[dot + 1..];
    assert s == path + "@" + s[at + 1..];
  }

  lemma CanonicalInjective(t: Triple, u: Triple)
    requires t.Valid() && u.Valid()
    requires t.Canonical() == u.Canonical()
    ensures t == u
  {
    SplitAfterPrint(t);
    SplitAfterPrint(u);
  }

  /** A handle read back from its own wire form keeps its canonical identifier; only the fields that
      never reach the wire are reset. */
  lemma HandleRoundTrip(c: Capability)
    requires c.Valid()
    ensures DecodeHandleCapability(c.id.adapter, c.id.Canonical())
            == Ok(c.(allowsPartial := false, defaultTimeout := 1_000_000_000))
  {
    CanonicalParts(c.id);
    var path := c.id.adapter + "." + c.id.name;
    assert path[|c.id.adapter| + 1..] == c.id.name;
  }

  /** Two ways to cut one string at a separator agree when neither left part, or neither part of the second
      cut, holds the separator. */
  lemma SameCut(a: string, b: string, c: string, d: string, sep: char)
    requires a + [sep] + b == c + [sep] + d && sep !in c && (sep !in a || sep !in d)
    ensures a == c && b == d
  {
    var s := a + [sep] + b;
    var s' := c + [sep] + d;
    assert s[|a|] == sep && s'[|c|] == sep;
    assert forall i :: 0 <= i < |a| ==> s[i] == a[i];
    assert forall i :: 0 <= i < |c| ==> s'[i] == c[i];
    assert forall i :: |c| < i < |s'| ==> s'[i] == d[i - |c| - 1];
    assert |a| == |c|;
    assert a == s[..|a|] && c == s'[..|c|] && b == s[|a| + 1..] && d == s'[|c| + 1..];
  }

  lemma PrefixIffLeftPart(adapter: string, left: string, rest: string)
    requires '.' !in adapter && '.' !in left
    ensures adapter + "." <= left + "." + rest <==> adapter == left
    ensures adapter + "." + rest == left + "." + rest <==> adapter == left
  {
    var s := left + "." + rest;
    if adapter + "." <= s {
      var tail := s[|adapter| + 1..];
      assert s == adapter + "." + tail;
      SameCut(adapter, tail, left, rest, '.');
    }
    if adapter + "." + rest == s {
      SameCut(adapter, rest, left, rest, '.');
    }
  }

  /** An accepted wire form, cut at its last '@' and first '.'. */
  lemma WireParts(adapter: string, canonical: string) returns (left: string)
    requires DecodeHandleCapability(adapter, canonical).Ok?
    ensures var id := DecodeHandleCapability(adapter, canonical).value.id;
            && '.' !in adapter && '.' !in left && id.adapter == adapter
            && canonical == left + "." + (id.name + "@" + id.version)
  {
    var at := LastIndexOf(canonical, '@');
    var path := canonical[..at];
    var dot := IndexOf(path, '.');
    left := path[..dot];
    assert '.' !in left && '.' !in adapter;
    var name, version := path[dot + 1..], canonical[at + 1..];
    assert DecodeHandleCapability(adapter, canonical).value.id == Triple(adapter, name, version);
    hide LastIndexOf, IndexOf, ValidName, ValidVersion, ValidAdapterId, DecodeHandleCapability;
    CutAt(canonical, at, '@');
    CutAt(path, dot, '.');
    Regroup(left, name, version);
  }

  lemma CutAt(s: string, i: nat, c: char)
    requires i < |s| && s[i] == c
    ensures s == s[..i] + [c] + s[i + 1..]
  {
  }

  lemma Regroup(left: string, name: string, version: string)
    ensures left + "." + name + "@" + version == left + "." + (name + "@" + version)
  {
  }

  /** The decoder trusts the separate adapter field, so a decoded handle prints its wire canonical back
      exactly when that field is the canonical's own adapter part. */
  lemma DecodeKeepsCanonicalIff(adapter: string, canonical: string)
    requires DecodeHandleCapability(adapter, canonical).Ok?
    ensures DecodeHandleCapability(adapter, canonical).value.id.Canonical() == canonical
            <==> adapter + "." <= canonical
  {
    var id := DecodeHandleCapability(adapter, canonical).value.id;
    var left := WireParts(adapter, canonical);
    Regroup(adapter, id.name, id.version);
    hide DecodeHandleCapability;
    PrefixIffLeftPart(adapter, left, id.name + "@" + id.version);
  }

  /** Such a wire form is accepted: the handle then names a capability its canonical does not. */
  lemma DecodeAcceptsForeignAdapter()
    ensures var r := DecodeHandleCapability("ab", "cd.ef@v1");
            r.Ok? && r.value.id == Triple("ab", "ef", "v1") && r.value.id.Canonical() != "cd.ef@v1"
  {
    LastIndexOfIs("cd.ef@v1", '@', 5);
    assert "cd.ef@v1"[..5] == "cd.ef" && "cd.ef@v1"[6..] == "v1" && "cd.ef"[3..] == "ef";
    IndexOfIs("cd.ef", '.', 2);
    assert ("ab" + "." + "ef" + "@" + "v1")[0] == 'a';
  }

  // ---------------------------------------------------------------- registry

  type Registry = map<string, Capability>

  /** Every entry is filed under its own canonical string. */
  predicate Filed(r: Registry) {
    forall k :: k in r ==> r[k].Valid() && r[k].id.Canonical() == k
  }

  predicate Distinct(caps: seq<Capability>) {
    forall i, j :: 0 <= i < j < |caps| ==> caps[i].id.Canonical() != caps[j].id.Canonical()
  }

  method NewCapabilityRegistry(caps: seq<Capability>) returns (r: Result<Registry>)
    requires forall c :: c in caps ==> c.Valid()
    ensures r.Ok? <==> Distinct(caps)
    ensures r.Ok? ==> Filed(r.value) && r.value.Values == (set c | c in caps)
  {
    hide Triple.Canonical;
    var byCanon: Registry := map[];
    for i := 0 to |caps|
      invariant Distinct(caps[..i])
      invariant Filed(byCanon)
      invariant forall j :: 0 <= j < i ==> caps[j].id.Canonical() in byCanon && byCanon[caps[j].id.Canonical()] == caps[j]
      invariant forall k :: k in byCanon ==> byCanon[k] in caps[..i]
    {
      var canon := caps[i].id.Canonical();
      if canon in byCanon {
        var j :| 0 <= j < i && caps[j] == byCanon[canon];
        assert caps[j].id.Canonical() == caps[i].id.Canonical();
        return Err("duplicate capability");
      }
      byCanon := byCanon[canon := caps[i]];
      assert caps[..i + 1] == caps[..i] + [caps[i]];
    }
    assert caps[..|caps|] == caps;
    forall c | c in caps
      ensures c in byCanon.Values
    {
      var j :| 0 <= j < |caps| && caps[j] == c;
      assert byCanon[caps[j].id.Canonical()] == c;
    }
    r := Ok(byCanon);
  }

  function Lookup(r: Registry, canonical: string): Result<Capability> {
    if canonical in r then Ok(r[canonical]) else Err("capability unknown: " + canonical)
  }

  /** A valid canonical has one '@' and its first '.' ends the adapter, so any request whose adapter id is
      well formed and that prints the same is the same, whatever its name and version fields look like. */
  lemma CanonicalExact(t: Triple, u: Triple)
    requires ValidAdapterId(t.adapter) && u.Valid() && t.Canonical() == u.Canonical()
    ensures t == u
  {
    assert '.' !in t.adapter && '.' !in u.adapter && '@' !in u.name && '@' !in u.version;
    Regroup(t.adapter, t.name, t.version);
    Regroup(u.adapter, u.name, u.version);
    assert t.adapter + "." + (t.name + "@" + t.version) == u.adapter + "." + (u.name + "@" + u.version);
    hide Triple.Canonical, ValidAdapterId, ValidName, ValidVersion;
    SameCut(t.adapter, t.name + "@" + t.version, u.adapter, u.name + "@" + u.version, '.');
    SameCut(t.name, t.version, u.name, u.version, '@');
  }

  /** Lookup returns exactly the requested triple, for every request the decoder accepts. */
  lemma LookupIsExact(r: Registry, t: Triple)
    requires Filed(r) && ValidAdapterId(t.adapter)
    requires Lookup(r, t.Canonical()).Ok?
    ensures Lookup(r, t.Canonical()).value.id == t && t.Canonical() in r && Lookup(r, t.Canonical()).value == r[t.Canonical()]
  {
    CanonicalExact(t, r[t.Canonical()].id);
  }
}
