/** Organization canonicalization: the four indexes built from the store's
    organizations table, and the processOrg closure that resolves an organization
    name from the import files to an organization id (exact name, lower-case name,
    then the regex mappings of the optional ORGS_MAP_FILE), learning aliases as it
    goes. The store's `select ? regexp ?` is passed in as a function. */
module Orgs {
  import opened Wrappers
  import opened Text
  import opened Records

  // ---- the indexes ----

  /** A map filled from pairs in order; a later pair overwrites an earlier one with
      the same key, as the row loop does. */
  function Index<K, V>(pairs: seq<(K, V)>): map<K, V>
  {
    if pairs == [] then map[]
    else Index(pairs[..|pairs| - 1])[pairs[|pairs| - 1].0 := pairs[|pairs| - 1].1]
  }

  /** One more pair read: the map of the longer prefix is the shorter one's plus that pair. */
  lemma IndexStep<K, V>(pairs: seq<(K, V)>, i: nat)
    requires i < |pairs|
    ensures Index(pairs[..i + 1]) == Index(pairs[..i])[pairs[i].0 := pairs[i].1]
  {
    assert pairs[..i + 1][..i] == pairs[..i];
  }

  /** A key is indexed exactly when some pair carries it. */
  lemma {:induction false} IndexKeys<K, V>(pairs: seq<(K, V)>, k: K)
    ensures k in Index(pairs) <==> exists i :: 0 <= i < |pairs| && pairs[i].0 == k
  {
    if pairs != [] {
      var n := |pairs| - 1;
      IndexKeys(pairs[..n], k);
      assert forall i :: 0 <= i < n ==> pairs[..n][i] == pairs[i];
    }
  }

  /** The last pair with a key decides its value. */
  lemma {:induction false} IndexLast<K, V>(pairs: seq<(K, V)>, i: nat)
    requires i < |pairs|
    requires forall j :: i < j < |pairs| ==> pairs[j].0 != pairs[i].0
    ensures pairs[i].0 in Index(pairs) && Index(pairs)[pairs[i].0] == pairs[i].1
  {
    var n := |pairs| - 1;
    if i < n {
      assert pairs[..n][i] == pairs[i];
      IndexLast(pairs[..n], i);
    }
  }

  /** A row of `select id, name from organizations`. */
  datatype OrgRow = OrgRow(id: int, name: string)

  function NameToId(rows: seq<OrgRow>): (ps: seq<(string, int)>)
    ensures |ps| == |rows|
  {
    seq(|rows|, i requires 0 <= i < |rows| => (rows[i].name, rows[i].id))
  }

  function IdToName(rows: seq<OrgRow>): (ps: seq<(int, string)>)
    ensures |ps| == |rows|
  {
    seq(|rows|, i requires 0 <= i < |rows| => (rows[i].id, rows[i].name))
  }

  function LowerToId(rows: seq<OrgRow>): (ps: seq<(string, int)>)
    ensures |ps| == |rows|
  {
    seq(|rows|, i requires 0 <= i < |rows| => (ToLower(rows[i].name), rows[i].id))
  }

  function IdToLower(rows: seq<OrgRow>): (ps: seq<(int, string)>)
    ensures |ps| == |rows|
  {
    seq(|rows|, i requires 0 <= i < |rows| => (rows[i].id, ToLower(rows[i].name)))
  }

  /** One pattern/target pair of the mapping file (`mappings: [[regexp, name], ...]`). */
  datatype Mapping = Mapping(pattern: string, target: string)

  /** What ORGS_MAP_FILE yields when it is first needed: no file configured (no
      mappings), a parsed list, or a file that cannot be read or parsed (fatal). */
  datatype MapSource = NoMapFile | MapFile(mappings: seq<Mapping>) | BadMapFile(reason: string)

  /** `select ? regexp ?` evaluated by the store: true when the count it returns is
      positive. */
  type Matcher = (string, string) -> bool

  /** Everything processOrg reads and writes: the four indexes, the missing set and
      counter, and the lazily loaded mappings. */
  datatype OrgState = OrgState(
    comp2id: map<string, int>,
    id2comp: map<int, string>,
    lcomp2id: map<string, int>,
    id2lcomp: map<int, string>,
    missingOrgs: set<string>,
    orgsMissing: nat,
    orgsLoaded: bool,
    mappings: seq<Mapping>)

  /** The state right after the organizations table has been read. */
  function Initial(rows: seq<OrgRow>): OrgState
  {
    OrgState(Index(NameToId(rows)), Index(IdToName(rows)), Index(LowerToId(rows)), Index(IdToLower(rows)),
             {}, 0, false, [])
  }

  /** With unique names and ids, name→id and id→name are inverse on every row. */
  lemma InitialInverse(rows: seq<OrgRow>, i: nat)
    requires i < |rows|
    requires forall j, k :: 0 <= j < k < |rows| ==> rows[j].id != rows[k].id && rows[j].name != rows[k].name
    ensures var st := Initial(rows);
      rows[i].name in st.comp2id && st.comp2id[rows[i].name] == rows[i].id
      && rows[i].id in st.id2comp && st.id2comp[rows[i].id] == rows[i].name
      && rows[i].id in st.id2lcomp && st.id2lcomp[rows[i].id] == ToLower(rows[i].name)
      && ToLower(rows[i].name) in st.lcomp2id
  {
    IndexLast(NameToId(rows), i);
    IndexLast(IdToName(rows), i);
    IndexLast(IdToLower(rows), i);
    IndexKeys(LowerToId(rows), ToLower(rows[i].name));
    assert LowerToId(rows)[i].0 == ToLower(rows[i].name);
  }

  // ---- the mapping file ----

  /** strings.Replace(re, `\\`, `\`, -1): every pair of backslashes, scanned left to
      right without overlap, becomes one. */
  function Unescape(s: string): (r: string)
    ensures |r| <= |s|
  {
    if |s| < 2 then s
    else if s[0] == '\\' && s[1] == '\\' then "\\" + Unescape(s[2..])
    else [s[0]] + Unescape(s[1..])
  }

  /** The escaping a YAML author applies: every backslash doubled. */
  function Escape(s: string): (r: string)
    ensures |r| >= |s|
  {
    if s == [] then [] else (if s[0] == '\\' then "\\\\" else [s[0]]) + Escape(s[1..])
  }

  lemma {:induction false} UnescapeEscape(s: string)
    ensures Unescape(Escape(s)) == s
  {
    if s != [] {
      UnescapeEscape(s[1..]);
      var e := Escape(s);
      if s[0] == '\\' {
        assert e[2..] == Escape(s[1..]);
      } else {
        assert e[1..] == Escape(s[1..]);
      }
    }
  }

  /** A pattern without a doubled backslash is used as it is. */
  lemma {:induction false} UnescapePlain(s: string)
    requires forall i :: 0 <= i < |s| - 1 ==> !(s[i] == '\\' && s[i + 1] == '\\')
    ensures Unescape(s) == s
  {
    if |s| >= 2 {
      UnescapePlain(s[1..]);
    }
  }

  /** Mapping m applies to name: its pattern matches and its target is in the table. */
  predicate Applies(matches: Matcher, m: Mapping, name: string, table: map<string, int>)
  {
    matches(name, Unescape(m.pattern)) && m.target in table
  }

  /** One pattern pass: the id of the first mapping that applies, in list order. */
  function FirstMapping(matches: Matcher, ms: seq<Mapping>, name: string, table: map<string, int>): (r: Option<int>)
    ensures r.None? <==> forall k :: 0 <= k < |ms| ==> !Applies(matches, ms[k], name, table)
    ensures r.Some? ==>
      exists k :: 0 <= k < |ms| && Applies(matches, ms[k], name, table) && r.value == table[ms[k].target]
        && forall j :: 0 <= j < k ==> !Applies(matches, ms[j], name, table)
  {
    if ms == [] then None
    else if Applies(matches, ms[0], name, table) then Some(table[ms[0].target])
    else
      var r := FirstMapping(matches, ms[1..], name, table);
      assert forall k :: 1 <= k < |ms| ==> ms[k] == ms[1..][k - 1];
      if r.Some? then
        var k :| 0 <= k < |ms| - 1 && Applies(matches, ms[1..][k], name, table)
          && r.value == table[ms[1..][k].target]
          && forall j :: 0 <= j < k ==> !Applies(matches, ms[1..][j], name, table);
        assert Applies(matches, ms[k + 1], name, table);
        r
      else r
  }

  /** The pass from position i on: the mapping at i, when it applies, else the rest. */
  lemma FirstMappingStep(matches: Matcher, ms: seq<Mapping>, name: string, table: map<string, int>, i: nat)
    requires i < |ms|
    ensures FirstMapping(matches, ms[i..], name, table) ==
      if Applies(matches, ms[i], name, table) then Some(table[ms[i].target])
      else FirstMapping(matches, ms[i + 1..], name, table)
  {
    assert ms[i..][0] == ms[i] && ms[i..][1..] == ms[i + 1..];
  }

  /** One pattern loop of processOrg: stops at the first mapping whose pattern matches
      and whose target is known; a match with an unknown target is skipped. */
  method ScanMappings(matches: Matcher, ms: seq<Mapping>, name: string, table: map<string, int>)
    returns (r: Option<int>)
    ensures r == FirstMapping(matches, ms, name, table)
  {
    var i := 0;
    while i < |ms|
      invariant 0 <= i <= |ms|
      invariant FirstMapping(matches, ms, name, table) == FirstMapping(matches, ms[i..], name, table)
    {
      FirstMappingStep(matches, ms, name, table, i);
      var re := Unescape(ms[i].pattern);
      if matches(name, re) && ms[i].target in table {
        return Some(table[ms[i].target]);
      }
      i := i + 1;
    }
    return None;
  }

  // ---- processOrg ----

  /** The lazy load of the mapping file: done once, on the first name that needs it. */
  function Load(st: OrgState, src: MapSource): (r: Result<OrgState>)
    ensures r.Ok? ==> r.value.orgsLoaded
    ensures st.orgsLoaded ==> r == Ok(st)
  {
    if st.orgsLoaded then Ok(st)
    else match src
      case NoMapFile => Ok(st.(orgsLoaded := true))
      case MapFile(ms) => Ok(st.(orgsLoaded := true, mappings := ms))
      case BadMapFile(m) => Fatal(m)
  }

  /** comp2id[comp] = cid; id2comp[cid] = comp. */
  function Learn(st: OrgState, comp: string, cid: int): OrgState
  {
    st.(comp2id := st.comp2id[comp := cid], id2comp := st.id2comp[cid := comp])
  }

  /** processOrg on one organization name. */
  function Canonicalize(st: OrgState, comp: string, src: MapSource, matches: Matcher): Result<OrgState>
  {
    if comp in st.comp2id then Ok(st)
    else if ToLower(comp) in st.lcomp2id then
      // The lower-case hit is only tested for presence; cid is still the zero value
      // of the failed exact lookup.
      Ok(Learn(st, comp, 0))
    else match Load(st, src)
      case Fatal(m) => Fatal(m)
      case Ok(st1) => Ok(ByMappings(st1, comp, matches))
  }

  /** The two pattern passes of processOrg once the mappings are loaded: against the
      exact names, then the lower-case name against the lower-case names; a name
      neither pass resolves is counted as missing. */
  function ByMappings(st: OrgState, comp: string, matches: Matcher): OrgState
  {
    match FirstMapping(matches, st.mappings, comp, st.comp2id)
    case Some(cid) => Learn(st, comp, cid)
    case None =>
      match FirstMapping(matches, st.mappings, ToLower(comp), st.lcomp2id)
      case Some(cid) => Learn(st, comp, cid)
      case None => st.(missingOrgs := st.missingOrgs + {comp}, orgsMissing := st.orgsMissing + 1)
  }

  /** processOrg over the organization names in the order the loop visits them. */
  function CanonicalizeAll(st: OrgState, names: seq<string>, src: MapSource, matches: Matcher): Result<OrgState>
    decreases |names|
  {
    if names == [] then Ok(st)
    else match Canonicalize(st, names[0], src, matches)
      case Fatal(m) => Fatal(m)
      case Ok(st1) => CanonicalizeAll(st1, names[1..], src, matches)
  }

  /** The loop over the names from position i on: the name at i first, then the rest. */
  lemma CanonicalizeAllStep(st: OrgState, names: seq<string>, i: nat, src: MapSource, matches: Matcher)
    requires i < |names|
    ensures var c := Canonicalize(st, names[i], src, matches);
      (c.Fatal? ==> CanonicalizeAll(st, names[i..], src, matches) == Fatal(c.reason))
      && (c.Ok? ==> CanonicalizeAll(st, names[i..], src, matches) == CanonicalizeAll(c.value, names[i + 1..], src, matches))
  {
    assert names[i..][0] == names[i] && names[i..][1..] == names[i + 1..];
  }

  /** The canonicalizer: the indexes and the bookkeeping processOrg updates in place. */
  class OrgIndex {
    var comp2id: map<string, int>
    var id2comp: map<int, string>
    var lcomp2id: map<string, int>
    var id2lcomp: map<int, string>
    var missingOrgs: set<string>
    var orgsMissing: nat
    var orgsLoaded: bool
    var mappings: seq<Mapping>

    ghost function State(): OrgState
      reads this
    {
      OrgState(comp2id, id2comp, lcomp2id, id2lcomp, missingOrgs, orgsMissing, orgsLoaded, mappings)
    }

    /** The row loop over `select id, name from organizations`. */
    constructor (rows: seq<OrgRow>)
      ensures State() == Initial(rows)
    {
      var c2i: map<string, int>, i2c: map<int, string>, lc2i: map<string, int>, i2lc: map<int, string>
        := map[], map[], map[], map[];
      var i := 0;
      while i < |rows|
        invariant 0 <= i <= |rows|
        invariant c2i == Index(NameToId(rows)[..i]) && i2c == Index(IdToName(rows)[..i])
        invariant lc2i == Index(LowerToId(rows)[..i]) && i2lc == Index(IdToLower(rows)[..i])
      {
        var lname := ToLower(rows[i].name);
        c2i := c2i[rows[i].name := rows[i].id];
        i2c := i2c[rows[i].id := rows[i].name];
        lc2i := lc2i[lname := rows[i].id];
        i2lc := i2lc[rows[i].id := lname];
        IndexStep(NameToId(rows), i);
        IndexStep(IdToName(rows), i);
        IndexStep(LowerToId(rows), i);
        IndexStep(IdToLower(rows), i);
        i := i + 1;
      }
      assert NameToId(rows)[..i] == NameToId(rows) && IdToName(rows)[..i] == IdToName(rows);
      assert LowerToId(rows)[..i] == LowerToId(rows) && IdToLower(rows)[..i] == IdToLower(rows);
      comp2id, id2comp, lcomp2id, id2lcomp := c2i, i2c, lc2i, i2lc;
      missingOrgs, orgsMissing, orgsLoaded, mappings := {}, 0, false, [];
    }

    /** processOrg (sequential mode); a fatal result aborts the run. */
    method ProcessOrg(comp: string, src: MapSource, matches: Matcher) returns (r: Result<()>)
      modifies this
      ensures r.Fatal? <==> Canonicalize(old(State()), comp, src, matches).Fatal?
      ensures r.Ok? ==> State() == Canonicalize(old(State()), comp, src, matches).value
    {
      if comp in comp2id {
        return Ok(());
      }
      var lComp := ToLower(comp);
      if lComp in lcomp2id {
        var cid := 0;
        comp2id := comp2id[comp := cid];
        id2comp := id2comp[cid := comp];
        return Ok(());
      }
      if !orgsLoaded {
        match src {
          case NoMapFile =>
          case MapFile(ms) => mappings := ms;
          case BadMapFile(m) => return Fatal(m);
        }
        orgsLoaded := true;
      }
      MatchMappings(comp, matches);
      r := Ok(());
    }

    /** The pattern passes of processOrg, over the loaded mappings. */
    method MatchMappings(comp: string, matches: Matcher)
      modifies this
      ensures State() == ByMappings(old(State()), comp, matches)
    {
      var hit := ScanMappings(matches, mappings, comp, comp2id);
      if hit.Some? {
        comp2id := comp2id[comp := hit.value];
        id2comp := id2comp[hit.value := comp];
        return;
      }
      hit := ScanMappings(matches, mappings, ToLower(comp), lcomp2id);
      if hit.Some? {
        comp2id := comp2id[comp := hit.value];
        id2comp := id2comp[hit.value := comp];
        return;
      }
      orgsMissing := orgsMissing + 1;
      missingOrgs := missingOrgs + {comp};
    }

    /** The sequential loop over the organization names. */
    method ProcessOrgs(names: seq<string>, src: MapSource, matches: Matcher) returns (r: Result<()>)
      modifies this
      ensures r.Fatal? <==> CanonicalizeAll(old(State()), names, src, matches).Fatal?
      ensures r.Ok? ==> State() == CanonicalizeAll(old(State()), names, src, matches).value
    {
      var i := 0;
      while i < |names|
        invariant 0 <= i <= |names|
        invariant CanonicalizeAll(old(State()), names, src, matches) == CanonicalizeAll(State(), names[i..], src, matches)
      {
        CanonicalizeAllStep(State(), names, i, src, matches);
        var res := ProcessOrg(names[i], src, matches);
        if res.Fatal? {
          return Fatal(res.reason);
        }
        i := i + 1;
      }
      assert names[i..] == [];
      r := Ok(());
    }
  }

  // ---- what canonicalization guarantees ----

  /** A name already in comp2id changes nothing. */
  lemma KnownNameUnchanged(st: OrgState, comp: string, src: MapSource, matches: Matcher)
    requires comp in st.comp2id
    ensures Canonicalize(st, comp, src, matches) == Ok(st)
  {
  }

  /** After processOrg a name is either resolved or recorded as missing, the indexes
      only grow, the lower-case indexes never change, and once loaded the mappings
      stay as they are. */
  lemma CanonicalizeOutcome(st: OrgState, comp: string, src: MapSource, matches: Matcher)
    requires Canonicalize(st, comp, src, matches).Ok?
    ensures var st' := Canonicalize(st, comp, src, matches).value;
      (comp in st'.comp2id || comp in st'.missingOrgs)
      && st.comp2id.Keys <= st'.comp2id.Keys && st.missingOrgs <= st'.missingOrgs
      && (forall c :: c in st.comp2id ==> st'.comp2id[c] == st.comp2id[c])
      && st'.lcomp2id == st.lcomp2id && st'.id2lcomp == st.id2lcomp
      && (st.orgsLoaded ==> st'.mappings == st.mappings)
  {
    if comp !in st.comp2id && ToLower(comp) !in st.lcomp2id {
      var st1 := Load(st, src).value;
      assert st1.comp2id == st.comp2id && st1.missingOrgs == st.missingOrgs;
      assert st1.lcomp2id == st.lcomp2id && st1.id2lcomp == st.id2lcomp;
      ByMappingsOutcome(st1, comp, matches);
    }
  }

  /** The pattern passes resolve the name or record it as missing, and touch neither
      the lower-case indexes nor the mappings. */
  lemma ByMappingsOutcome(st: OrgState, comp: string, matches: Matcher)
    requires comp !in st.comp2id
    ensures var st' := ByMappings(st, comp, matches);
      (comp in st'.comp2id || comp in st'.missingOrgs)
      && st.comp2id.Keys <= st'.comp2id.Keys && st.missingOrgs <= st'.missingOrgs
      && (forall c :: c in st.comp2id ==> st'.comp2id[c] == st.comp2id[c])
      && st'.lcomp2id == st.lcomp2id && st'.id2lcomp == st.id2lcomp
      && st'.mappings == st.mappings
  {
    var r1 := FirstMapping(matches, st.mappings, comp, st.comp2id);
    var r2 := FirstMapping(matches, st.mappings, ToLower(comp), st.lcomp2id);
    if r1.Some? {
      LearnOutcome(st, comp, r1.value);
    } else if r2.Some? {
      LearnOutcome(st, comp, r2.value);
    }
  }

  /** Learning an alias for a new name adds that key and changes nothing else of comp2id. */
  lemma LearnOutcome(st: OrgState, comp: string, cid: int)
    requires comp !in st.comp2id
    ensures var st' := Learn(st, comp, cid);
      comp in st'.comp2id && st.comp2id.Keys <= st'.comp2id.Keys
      && (forall c :: c in st.comp2id ==> st'.comp2id[c] == st.comp2id[c])
      && st'.missingOrgs == st.missingOrgs && st'.lcomp2id == st.lcomp2id
      && st'.id2lcomp == st.id2lcomp && st'.mappings == st.mappings
  {
  }

  /** Every id processOrg learns comes from the indexes: the lower-case tier learns 0,
      the first pass an id of comp2id, the second an id of lcomp2id, each through a
      mapping whose pattern matches the name (or its lower-case form). */
  lemma LearnedIdOrigin(st: OrgState, comp: string, src: MapSource, matches: Matcher)
    requires Canonicalize(st, comp, src, matches).Ok?
    requires comp !in st.comp2id
    ensures var st' := Canonicalize(st, comp, src, matches).value;
      comp in st'.comp2id ==>
        (ToLower(comp) in st.lcomp2id && st'.comp2id[comp] == 0)
        || (exists k :: 0 <= k < |st'.mappings| && Applies(matches, st'.mappings[k], comp, st.comp2id)
              && st'.comp2id[comp] == st.comp2id[st'.mappings[k].target])
        || (exists k :: 0 <= k < |st'.mappings| && Applies(matches, st'.mappings[k], ToLower(comp), st.lcomp2id)
              && st'.comp2id[comp] == st.lcomp2id[st'.mappings[k].target])
  {
  }

  /** Any name without an exact entry whose lower-case form is known takes the
      lower-case tier: it is cached with id 0, id 0 points back at it, and nothing
      else changes, whatever id the lower-case index holds for it. */
  lemma LowerCaseTierLearnsZero(st: OrgState, comp: string, src: MapSource, matches: Matcher)
    requires comp !in st.comp2id && ToLower(comp) in st.lcomp2id
    ensures var r := Canonicalize(st, comp, src, matches);
      r.Ok? && r.value.comp2id == st.comp2id[comp := 0] && r.value.id2comp == st.id2comp[0 := comp]
      && r.value.(comp2id := st.comp2id, id2comp := st.id2comp) == st
  {
  }

  /** An organization stored as "Acme Corp": that name takes the exact tier and keeps
      its id; "acme corp" takes the lower-case tier, which caches id 0 for it and makes
      id 0 point back at it, whatever the real id is. */
  lemma LowerCaseTierCachesZero(id: int, src: MapSource, matches: Matcher)
    ensures var st := Initial([OrgRow(id, "Acme Corp")]);
      "Acme Corp" in st.comp2id && st.comp2id["Acme Corp"] == id
      && Canonicalize(st, "Acme Corp", src, matches) == Ok(st)
      && var r := Canonicalize(st, "acme corp", src, matches);
      r.Ok? && "acme corp" in r.value.comp2id && r.value.comp2id["acme corp"] == 0
      && 0 in r.value.id2comp && r.value.id2comp[0] == "acme corp"
  {
    var rows := [OrgRow(id, "Acme Corp")];
    var st := Initial(rows);
    assert NameToId(rows) == [("Acme Corp", id)];
    assert Index(NameToId(rows)) == Index(NameToId(rows)[..0])["Acme Corp" := id];
    assert st.comp2id == map["Acme Corp" := id];
    assert "acme corp"[0] != "Acme Corp"[0];
    assert "acme corp" !in st.comp2id;
    assert ToLower("Acme Corp") == ToLower("acme corp");
    assert LowerToId(rows) == [(ToLower("acme corp"), id)];
    assert Index(LowerToId(rows)) == Index(LowerToId(rows)[..0])[ToLower("acme corp") := id];
    assert ToLower("acme corp") in st.lcomp2id;
  }

  /** The indexes are coherent and every id of lcomp2id has a name in id2comp. */
  predicate CoherentState(st: OrgState)
  {
    Coherent(st.comp2id, st.id2comp) && forall n :: n in st.lcomp2id ==> st.lcomp2id[n] in st.id2comp
  }

  /** Where a key's value comes from: the last pair that carries the key. */
  lemma {:induction false} IndexWitness<K, V>(pairs: seq<(K, V)>, k: K) returns (i: nat)
    requires k in Index(pairs)
    ensures i < |pairs| && pairs[i].0 == k && Index(pairs)[k] == pairs[i].1
    ensures forall j :: i < j < |pairs| ==> pairs[j].0 != k
  {
    var n := |pairs| - 1;
    if pairs[n].0 == k {
      i := n;
    } else {
      i := IndexWitness(pairs[..n], k);
      assert pairs[..n][i] == pairs[i];
    }
  }

  /** With unique organization names the indexes start out coherent. */
  lemma InitialCoherent(rows: seq<OrgRow>)
    requires forall j, k :: 0 <= j < k < |rows| ==> rows[j].name != rows[k].name
    ensures CoherentState(Initial(rows))
  {
    var st := Initial(rows);
    forall id | id in st.id2comp
      ensures st.id2comp[id] in st.comp2id && st.comp2id[st.id2comp[id]] == id
    {
      var i := IndexWitness(IdToName(rows), id);
      IndexLast(NameToId(rows), i);
    }
    forall n | n in st.comp2id
      ensures st.comp2id[n] in st.id2comp
    {
      var i := IndexWitness(NameToId(rows), n);
      IndexKeys(IdToName(rows), rows[i].id);
      assert IdToName(rows)[i].0 == rows[i].id;
    }
    forall n | n in st.lcomp2id
      ensures st.lcomp2id[n] in st.id2comp
    {
      var i := IndexWitness(LowerToId(rows), n);
      IndexKeys(IdToName(rows), rows[i].id);
      assert IdToName(rows)[i].0 == rows[i].id;
    }
  }

  /** Learning an alias for a name without an id keeps the indexes coherent. */
  lemma LearnCoherent(st: OrgState, comp: string, cid: int)
    requires CoherentState(st) && comp !in st.comp2id
    ensures CoherentState(Learn(st, comp, cid))
  {
    var st' := Learn(st, comp, cid);
    forall id | id in st'.id2comp
      ensures st'.id2comp[id] in st'.comp2id && st'.comp2id[st'.id2comp[id]] == id
    {
      if id != cid {
        assert st.id2comp[id] != comp;
      }
    }
  }

  /** processOrg keeps the indexes coherent. */
  lemma CanonicalizeCoherent(st: OrgState, comp: string, src: MapSource, matches: Matcher)
    requires CoherentState(st)
    requires Canonicalize(st, comp, src, matches).Ok?
    ensures CoherentState(Canonicalize(st, comp, src, matches).value)
  {
    if comp !in st.comp2id {
      if ToLower(comp) in st.lcomp2id {
        LearnCoherent(st, comp, 0);
      } else {
        var st1 := Load(st, src).value;
        var hit1 := FirstMapping(matches, st1.mappings, comp, st1.comp2id);
        var hit2 := FirstMapping(matches, st1.mappings, ToLower(comp), st1.lcomp2id);
        if hit1.Some? {
          LearnCoherent(st1, comp, hit1.value);
        } else if hit2.Some? {
          LearnCoherent(st1, comp, hit2.value);
        }
      }
    }
  }

  /** Once a name is resolved, processing it again changes nothing. */
  lemma ResolvedStaysResolved(st: OrgState, comp: string, src: MapSource, matches: Matcher)
    requires Canonicalize(st, comp, src, matches).Ok?
    requires comp in Canonicalize(st, comp, src, matches).value.comp2id
    ensures var st' := Canonicalize(st, comp, src, matches).value;
      Canonicalize(st', comp, src, matches) == Ok(st')
  {
  }

  /** The whole loop keeps the indexes coherent. */
  lemma {:induction false} CanonicalizeAllCoherent(st: OrgState, names: seq<string>, src: MapSource, matches: Matcher)
    requires CoherentState(st)
    requires CanonicalizeAll(st, names, src, matches).Ok?
    ensures CoherentState(CanonicalizeAll(st, names, src, matches).value)
    decreases |names|
  {
    if names != [] {
      CanonicalizeCoherent(st, names[0], src, matches);
      CanonicalizeAllCoherent(Canonicalize(st, names[0], src, matches).value, names[1..], src, matches);
    }
  }

  /** The bookkeeping processOrg keeps: the counter counts the missing names, and no
      missing name has an id. */
  predicate Consistent(st: OrgState)
  {
    st.orgsMissing == |st.missingOrgs| && forall c :: c in st.missingOrgs ==> c !in st.comp2id
  }

  /** processOrg on a name not yet recorded as missing keeps the bookkeeping
      consistent. */
  lemma CanonicalizeConsistent(st: OrgState, comp: string, src: MapSource, matches: Matcher)
    requires Consistent(st) && comp !in st.missingOrgs
    requires Canonicalize(st, comp, src, matches).Ok?
    ensures Consistent(Canonicalize(st, comp, src, matches).value)
  {
    var st' := Canonicalize(st, comp, src, matches).value;
    if comp in st.comp2id {
    } else if ToLower(comp) in st.lcomp2id {
      assert st' == Learn(st, comp, 0);
    } else {
      var st1 := Load(st, src).value;
      assert st1.missingOrgs == st.missingOrgs && st1.orgsMissing == st.orgsMissing && st1.comp2id == st.comp2id;
      var hit1 := FirstMapping(matches, st1.mappings, comp, st1.comp2id);
      var hit2 := FirstMapping(matches, st1.mappings, ToLower(comp), st1.lcomp2id);
      if hit1.Some? {
        assert st' == Learn(st1, comp, hit1.value);
      } else if hit2.Some? {
        assert st' == Learn(st1, comp, hit2.value);
      } else {
        assert st'.missingOrgs == st.missingOrgs + {comp} && st'.comp2id == st.comp2id;
        assert |st'.missingOrgs| == |st.missingOrgs| + 1;
      }
    }
  }

  /** Over distinct names none of which was recorded as missing before, the
      bookkeeping stays consistent. */
  lemma {:induction false} CanonicalizeAllConsistent(st: OrgState, names: seq<string>, src: MapSource, matches: Matcher)
    requires Consistent(st)
    requires forall i, j :: 0 <= i < j < |names| ==> names[i] != names[j]
    requires forall i :: 0 <= i < |names| ==> names[i] !in st.missingOrgs
    requires CanonicalizeAll(st, names, src, matches).Ok?
    ensures Consistent(CanonicalizeAll(st, names, src, matches).value)
    decreases |names|
  {
    if names != [] {
      var st1 := Canonicalize(st, names[0], src, matches).value;
      CanonicalizeConsistent(st, names[0], src, matches);
      CanonicalizeOutcome(st, names[0], src, matches);
      var rest := names[1..];
      forall i | 0 <= i < |rest|
        ensures rest[i] !in st1.missingOrgs
      {
        assert rest[i] == names[i + 1];
        assert rest[i] != names[0];
        if rest[i] in st1.missingOrgs {
          CanonicalizeMissingGrowsBy(st, names[0], src, matches);
        }
      }
      CanonicalizeAllConsistent(st1, rest, src, matches);
    }
  }

  /** processOrg records at most the name it is given as missing. */
  lemma CanonicalizeMissingGrowsBy(st: OrgState, comp: string, src: MapSource, matches: Matcher)
    requires Canonicalize(st, comp, src, matches).Ok?
    ensures Canonicalize(st, comp, src, matches).value.missingOrgs <= st.missingOrgs + {comp}
  {
    if comp !in st.comp2id && ToLower(comp) !in st.lcomp2id {
      assert Load(st, src).value.missingOrgs == st.missingOrgs;
    }
  }

  /** Every name of the loop ends up resolved or recorded as missing. */
  lemma {:induction false} CanonicalizeAllCovers(st: OrgState, names: seq<string>, src: MapSource, matches: Matcher)
    requires CanonicalizeAll(st, names, src, matches).Ok?
    ensures var st' := CanonicalizeAll(st, names, src, matches).value;
      forall i :: 0 <= i < |names| ==> names[i] in st'.comp2id || names[i] in st'.missingOrgs
    decreases |names|
  {
    if names != [] {
      var st1 := Canonicalize(st, names[0], src, matches).value;
      CanonicalizeOutcome(st, names[0], src, matches);
      var rest := names[1..];
      CanonicalizeAllCovers(st1, rest, src, matches);
      CanonicalizeAllMonotone(st1, rest, src, matches);
      var st' := CanonicalizeAll(st, names, src, matches).value;
      assert st' == CanonicalizeAll(st1, rest, src, matches).value;
      forall i | 0 <= i < |names|
        ensures names[i] in st'.comp2id || names[i] in st'.missingOrgs
      {
        if i > 0 {
          assert names[i] == rest[i - 1];
        }
      }
    }
  }

  /** Resolved names and missing names are never forgotten. */
  lemma {:induction false} CanonicalizeAllMonotone(st: OrgState, names: seq<string>, src: MapSource, matches: Matcher)
    requires CanonicalizeAll(st, names, src, matches).Ok?
    decreases |names|
    ensures var st' := CanonicalizeAll(st, names, src, matches).value;
      st.comp2id.Keys <= st'.comp2id.Keys && st.missingOrgs <= st'.missingOrgs
  {
    if names != [] {
      CanonicalizeOutcome(st, names[0], src, matches);
      CanonicalizeAllMonotone(Canonicalize(st, names[0], src, matches).value, names[1..], src, matches);
    }
  }

  /** The organization names the loop visits: those of the enrollments of every record
      resolved in any file. */
  function OrgNames(recs: seq<UIdentity>): set<string>
  {
    set i, k | 0 <= i < |recs| && 0 <= k < |recs[i].enrollments| :: recs[i].enrollments[k].organization
  }

  /** The loop that gathers the organization names of the resolved records. */
  method CollectOrgs(recs: seq<UIdentity>) returns (orgs: set<string>)
    ensures orgs == OrgNames(recs)
  {
    orgs := {};
    var i := 0;
    while i < |recs|
      invariant 0 <= i <= |recs|
      invariant orgs == OrgNames(recs[..i])
    {
      var j := 0;
      while j < |recs[i].enrollments|
        invariant 0 <= j <= |recs[i].enrollments|
        invariant orgs == OrgNames(recs[..i]) + set k | 0 <= k < j :: recs[i].enrollments[k].organization
      {
        orgs := orgs + {recs[i].enrollments[j].organization};
        j := j + 1;
      }
      assert recs[..i + 1][..i] == recs[..i];
      i := i + 1;
    }
    assert recs[..i] == recs;
  }
}
