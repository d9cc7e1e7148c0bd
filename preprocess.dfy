/** postprocessIdentities with its closures processItem, processResult and setUUID,
    run sequentially: validate each record, recover its alias map from the loosely
    typed decode of the same YAML document, fill default enrollment dates, look the
    record up, and sort it into the resolved map or the missing list. */
module Preprocess {
  import opened Wrappers
  import opened Records
  import opened Lookup

  /** A value of the loosely typed YAML decode (an interface{}): a string, a list, or
      anything else (a number, a mapping, ...). */
  datatype Node = Str(s: string) | List(items: seq<Node>) | Other

  /** The loosely typed decode of one record: a mapping (map[interface{}]interface{},
      its entries in Go's iteration order) or something that is not a mapping. */
  datatype Doc = Mapping(entries: seq<(Node, Node)>) | NotMapping

  /** Keys the typed decode already covers; they are never copied into the alias map. */
  predicate Reserved(k: string)
  {
    k == "profile" || k == "enrollments" || k == "email"
  }

  predicate AllStrings(items: seq<Node>)
  {
    forall i :: 0 <= i < |items| ==> items[i].Str?
  }

  function Strs(items: seq<Node>): (r: seq<string>)
    requires AllStrings(items)
    ensures |r| == |items| && forall i :: 0 <= i < |items| ==> items[i] == Str(r[i])
  {
    seq(|items|, i requires 0 <= i < |items| => items[i].s)
  }

  /** An entry that makes the alias extraction fatal. */
  predicate Malformed(e: (Node, Node))
  {
    !e.0.Str? || (!Reserved(e.0.s) && (!e.1.List? || !AllStrings(e.1.items)))
  }

  /** Ident x is what the extraction makes of entry e. */
  predicate Copies(e: (Node, Node), x: Ident)
  {
    e.0 == Str(x.source) && !Reserved(x.source) && e.1.List? && AllStrings(e.1.items)
    && x.usernames == Strs(e.1.items)
  }

  const NotAMapping := "cannot parse dynamic datasource identities list fields"
  const KeyNotString := "dynamic datasource identities list - cannot parse key as string"
  const ValueNotList := "dynamic datasource identities list - cannot parse value as array"
  const ItemNotString := "dynamic datasource identities list - cannot parse item as string"
  const ProfileWithoutName := "profile without name"
  const EnrollmentWithoutOrg := "enrollment without organization name"

  /** The alias map the loop at lines 441-463 builds from the entries, in entry order. */
  function IdentsOf(entries: seq<(Node, Node)>): (r: Result<seq<Ident>>)
    ensures r.Fatal? <==> exists j :: 0 <= j < |entries| && Malformed(entries[j])
    ensures r.Ok? ==> forall k :: 0 <= k < |r.value| ==> !Reserved(r.value[k].source)
  {
    if entries == [] then Ok([])
    else
      var e := entries[0];
      assert forall j :: 1 <= j < |entries| ==> entries[j] == entries[1..][j - 1];
      if !e.0.Str? then Fatal(KeyNotString)
      else if Reserved(e.0.s) then IdentsOf(entries[1..])
      else if !e.1.List? then Fatal(ValueNotList)
      else if !AllStrings(e.1.items) then Fatal(ItemNotString)
      else match IdentsOf(entries[1..])
        case Fatal(m) => Fatal(m)
        case Ok(rest) => Ok([Ident(e.0.s, Strs(e.1.items))] + rest)
  }

  /** The extraction invents nothing: every ident is the copy of some entry. */
  lemma {:induction false} IdentsSound(entries: seq<(Node, Node)>)
    requires IdentsOf(entries).Ok?
    ensures forall k :: 0 <= k < |IdentsOf(entries).value| ==>
      exists j :: 0 <= j < |entries| && Copies(entries[j], IdentsOf(entries).value[k])
  {
    if entries != [] {
      var tail := entries[1..];
      IdentsSound(tail);
      var ids := IdentsOf(entries).value;
      var rest := IdentsOf(tail).value;
      if Reserved(entries[0].0.s) {
        assert ids == rest;
        forall k | 0 <= k < |ids|
          ensures exists j :: 0 <= j < |entries| && Copies(entries[j], ids[k])
        {
          var j :| 0 <= j < |tail| && Copies(tail[j], rest[k]);
          assert entries[j + 1] == tail[j];
        }
      } else {
        assert ids == [ids[0]] + rest;
        forall k | 0 <= k < |ids|
          ensures exists j :: 0 <= j < |entries| && Copies(entries[j], ids[k])
        {
          if k == 0 {
            assert Copies(entries[0], ids[0]);
          } else {
            assert ids[k] == rest[k - 1];
            var j :| 0 <= j < |tail| && Copies(tail[j], rest[k - 1]);
            assert entries[j + 1] == tail[j];
          }
        }
      }
    }
  }

  /** The extraction loses nothing: every entry whose key is not reserved is copied. */
  lemma {:induction false} IdentsComplete(entries: seq<(Node, Node)>)
    requires IdentsOf(entries).Ok?
    ensures forall j :: 0 <= j < |entries| && !Reserved(entries[j].0.s) ==>
      exists k :: 0 <= k < |IdentsOf(entries).value| && Copies(entries[j], IdentsOf(entries).value[k])
  {
    if entries != [] {
      var tail := entries[1..];
      IdentsComplete(tail);
      var ids := IdentsOf(entries).value;
      var rest := IdentsOf(tail).value;
      if Reserved(entries[0].0.s) {
        assert ids == rest;
        forall j | 0 <= j < |entries| && !Reserved(entries[j].0.s)
          ensures exists k :: 0 <= k < |ids| && Copies(entries[j], ids[k])
        {
          assert entries[j] == tail[j - 1];
          var k :| 0 <= k < |rest| && Copies(tail[j - 1], rest[k]);
        }
      } else {
        assert ids == [ids[0]] + rest;
        forall j | 0 <= j < |entries| && !Reserved(entries[j].0.s)
          ensures exists k :: 0 <= k < |ids| && Copies(entries[j], ids[k])
        {
          if j == 0 {
            assert Copies(entries[0], ids[0]);
          } else {
            assert entries[j] == tail[j - 1];
            var k :| 0 <= k < |rest| && Copies(tail[j - 1], rest[k]);
            assert ids[k + 1] == rest[k];
          }
        }
      }
    }
  }

  function ParseIdents(doc: Doc): Result<seq<Ident>>
  {
    match doc
    case NotMapping => Fatal(NotAMapping)
    case Mapping(entries) => IdentsOf(entries)
  }

  /** How a result continues once a prefix of idents has been built. */
  function Glue(prefix: seq<Ident>, r: Result<seq<Ident>>): Result<seq<Ident>>
  {
    match r
    case Fatal(m) => Fatal(m)
    case Ok(rest) => Ok(prefix + rest)
  }

  /** The loop of processItem that builds uidentity.Idents. */
  method ExtractIdents(doc: Doc) returns (r: Result<seq<Ident>>)
    ensures r == ParseIdents(doc)
  {
    if doc.NotMapping? {
      return Fatal(NotAMapping);
    }
    var entries := doc.entries;
    var idents: seq<Ident> := [];
    var i := 0;
    assert entries[i..] == entries;
    if IdentsOf(entries).Ok? {
      assert idents + IdentsOf(entries).value == IdentsOf(entries).value;
    }
    while i < |entries|
      invariant 0 <= i <= |entries|
      invariant IdentsOf(entries) == Glue(idents, IdentsOf(entries[i..]))
    {
      var (k, v) := entries[i];
      assert entries[i..][0] == entries[i] && entries[i..][1..] == entries[i + 1..];
      if !k.Str? {
        return Fatal(KeyNotString);
      }
      if !Reserved(k.s) {
        if !v.List? {
          return Fatal(ValueNotList);
        }
        var others: seq<string> := [];
        var j := 0;
        while j < |v.items|
          invariant 0 <= j <= |v.items|
          invariant AllStrings(v.items[..j]) && others == Strs(v.items[..j])
        {
          if !v.items[j].Str? {
            assert !AllStrings(v.items);
            return Fatal(ItemNotString);
          }
          others := others + [v.items[j].s];
          assert v.items[..j + 1] == v.items[..j] + [v.items[j]];
          j := j + 1;
        }
        assert v.items[..j] == v.items;
        if IdentsOf(entries[i + 1..]).Ok? {
          var rest := IdentsOf(entries[i + 1..]).value;
          assert idents + [Ident(k.s, others)] + rest == idents + ([Ident(k.s, others)] + rest);
        }
        idents := idents + [Ident(k.s, others)];
      }
      i := i + 1;
    }
    assert entries[i..] == [];
    assert idents + [] == idents;
    r := Ok(idents);
  }

  // ---- default dates ----

  /** Zero Start becomes 1900-01-01, zero End becomes 2100-01-01; nothing else changes. */
  function WithDefaultDates(e: Enrollment): (r: Enrollment)
    ensures !IsZero(r.start) && !IsZero(r.end)
    ensures r.(start := e.start, end := e.end) == e
    ensures !IsZero(e.start) ==> r.start == e.start
    ensures !IsZero(e.end) ==> r.end == e.end
  {
    e.(start := if IsZero(e.start) then DefaultStart else e.start,
       end := if IsZero(e.end) then DefaultEnd else e.end)
  }

  lemma WithDefaultDatesIdempotent(e: Enrollment)
    ensures WithDefaultDates(WithDefaultDates(e)) == WithDefaultDates(e)
  {
  }

  function DefaultDates(ens: seq<Enrollment>): (r: seq<Enrollment>)
    ensures |r| == |ens|
    ensures forall i :: 0 <= i < |ens| ==> r[i] == WithDefaultDates(ens[i])
  {
    seq(|ens|, i requires 0 <= i < |ens| => WithDefaultDates(ens[i]))
  }

  predicate HasUnnamedOrg(ens: seq<Enrollment>)
  {
    exists i :: 0 <= i < |ens| && ens[i].organization == ""
  }

  /** The enrollment loop of processItem: an enrollment without an organization is
      fatal; zero dates get the default bounds. */
  method FillDefaultDates(ens: seq<Enrollment>) returns (r: Result<seq<Enrollment>>)
    ensures r.Fatal? <==> HasUnnamedOrg(ens)
    ensures r.Ok? ==> r.value == DefaultDates(ens)
  {
    var out := ens;
    var i := 0;
    while i < |ens|
      invariant 0 <= i <= |ens| && |out| == |ens|
      invariant forall k :: 0 <= k < i ==> ens[k].organization != ""
      invariant forall k :: 0 <= k < i ==> out[k] == WithDefaultDates(ens[k])
      invariant forall k :: i <= k < |ens| ==> out[k] == ens[k]
    {
      if ens[i].organization == "" {
        return Fatal(EnrollmentWithoutOrg);
      }
      if IsZero(ens[i].start) {
        out := out[i := out[i].(start := DefaultStart)];
      }
      if IsZero(ens[i].end) {
        out := out[i := out[i].(end := DefaultEnd)];
      }
      i := i + 1;
    }
    r := Ok(out);
  }

  // ---- processItem ----

  /** What processItem reports for one record: a fatal error, "skip", or the record as
      updated in place (aliases and dates) with the uuid found for it ("" = none). */
  datatype ItemResult = ItemFatal(reason: string) | Skip | Looked(updated: UIdentity, uuid: string)

  function ItemSpec(rows: Rows, u: UIdentity, doc: Doc): ItemResult
  {
    if u.profile.name == "" then ItemFatal(ProfileWithoutName)
    else if |u.enrollments| == 0 then Skip
    else match ParseIdents(doc)
      case Fatal(m) => ItemFatal(m)
      case Ok(ids) =>
        if HasUnnamedOrg(u.enrollments) then ItemFatal(EnrollmentWithoutOrg)
        else
          var u' := u.(idents := ids, enrollments := DefaultDates(u.enrollments));
          Looked(u', FirstHit(rows, Cascade(u.profile.name, ids, u.emails)))
  }

  /** processItem (sequential mode). */
  method ProcessItem(rows: Rows, u: UIdentity, doc: Doc) returns (res: ItemResult)
    ensures res == ItemSpec(rows, u, doc)
  {
    if u.profile.name == "" {
      return ItemFatal(ProfileWithoutName);
    }
    if |u.enrollments| == 0 {
      return Skip;
    }
    var ids := ExtractIdents(doc);
    if ids.Fatal? {
      return ItemFatal(ids.reason);
    }
    var ens := FillDefaultDates(u.enrollments);
    if ens.Fatal? {
      return ItemFatal(EnrollmentWithoutOrg);
    }
    var updated := u.(idents := ids.value, enrollments := ens.value);
    var uuid := LookupUIdentity(rows, updated);
    res := Looked(updated, uuid);
  }

  /** An empty profile name is fatal before the store is consulted at all: the outcome
      does not depend on the store. */
  lemma EmptyNameFatalBeforeLookup(rows1: Rows, rows2: Rows, u: UIdentity, doc: Doc)
    requires u.profile.name == ""
    ensures ItemSpec(rows1, u, doc) == ItemSpec(rows2, u, doc) == ItemFatal(ProfileWithoutName)
  {
  }

  /** A record with a name and no enrollments is skipped without a lookup, whatever its
      side document holds. */
  lemma NoEnrollmentsSkipped(rows: Rows, u: UIdentity, doc: Doc)
    requires u.profile.name != "" && u.enrollments == []
    ensures ItemSpec(rows, u, doc) == Skip
  {
  }

  /** What a looked-up record looks like: same profile, emails and uuid, the same
      enrollments with every organization named and both dates set, aliases free of the
      reserved keys, and the uuid that the cascade over those aliases yields. */
  lemma LookedRecordComplete(rows: Rows, u: UIdentity, doc: Doc)
    requires ItemSpec(rows, u, doc).Looked?
    ensures var r := ItemSpec(rows, u, doc); var v := r.updated;
      v.profile == u.profile && v.emails == u.emails && v.uuid == u.uuid
      && |v.enrollments| == |u.enrollments| > 0
      && (forall i :: 0 <= i < |v.enrollments| ==>
            v.enrollments[i].organization == u.enrollments[i].organization != ""
            && !IsZero(v.enrollments[i].start) && !IsZero(v.enrollments[i].end))
      && (forall k :: 0 <= k < |v.idents| ==> !Reserved(v.idents[k].source))
      && r.uuid == FirstHit(rows, Cascade(u.profile.name, v.idents, u.emails))
  {
    var ids := ParseIdents(doc).value;
    assert ParseIdents(doc) == IdentsOf(doc.entries);
  }

  // ---- setUUID ----

  predicate Stamped(u: UIdentity, uid: string, slug: Option<string>)
  {
    u.uuid == uid && u.profile.uuid == uid
    && forall i :: 0 <= i < |u.enrollments| ==>
         u.enrollments[i].uuid == uid && u.enrollments[i].projectSlug == slug
  }

  /** setUUID: the uuid goes on the record, its profile and every enrollment, and every
      enrollment gets the run's project slug; nothing else changes. */
  function Stamp(u: UIdentity, uid: string, slug: Option<string>): (r: UIdentity)
    ensures Stamped(r, uid, slug)
    ensures r.profile == u.profile.(uuid := uid) && r.emails == u.emails && r.idents == u.idents
    ensures |r.enrollments| == |u.enrollments|
    ensures forall i :: 0 <= i < |u.enrollments| ==>
      r.enrollments[i].(uuid := u.enrollments[i].uuid, projectSlug := u.enrollments[i].projectSlug)
        == u.enrollments[i]
  {
    u.(uuid := uid, profile := u.profile.(uuid := uid),
       enrollments := seq(|u.enrollments|, i requires 0 <= i < |u.enrollments| =>
         u.enrollments[i].(uuid := uid, projectSlug := slug)))
  }

  /** setUUID, which updates the record in place, enrollment by enrollment. */
  method SetUUID(u: UIdentity, uid: string, slug: Option<string>) returns (r: UIdentity)
    ensures r == Stamp(u, uid, slug)
  {
    r := u.(uuid := uid, profile := u.profile.(uuid := uid));
    var ens := u.enrollments;
    var i := 0;
    while i < |ens|
      invariant 0 <= i <= |ens| && |ens| == |u.enrollments|
      invariant forall k :: 0 <= k < i ==> ens[k] == u.enrollments[k].(uuid := uid, projectSlug := slug)
      invariant forall k :: i <= k < |ens| ==> ens[k] == u.enrollments[k]
    {
      ens := ens[i := ens[i].(uuid := uid, projectSlug := slug)];
      i := i + 1;
    }
    r := r.(enrollments := ens);
  }

  // ---- the whole pass ----

  function Outcomes(rows: Rows, recs: seq<UIdentity>, docs: seq<Doc>): (outs: seq<ItemResult>)
    requires |docs| == |recs|
    ensures |outs| == |recs|
  {
    seq(|recs|, i requires 0 <= i < |recs| => ItemSpec(rows, recs[i], docs[i]))
  }

  /** The uuid processItem reports for a record without enrollments. processResult
      drops every outcome carrying it, including a lookup whose store row reads "skip". */
  const SkipMarker := "skip"

  /** Whether processResult files the outcome under uid. */
  predicate Resolves(o: ItemResult, uid: string)
  {
    o.Looked? && o.uuid == uid && uid != "" && uid != SkipMarker
  }

  /** What processResult does to uidentitiesMap with one outcome: a resolved record,
      stamped, goes under its uuid, replacing whatever was there. */
  function AddResolved(m: map<string, UIdentity>, o: ItemResult, slug: Option<string>): map<string, UIdentity>
  {
    if o.Looked? && Resolves(o, o.uuid) then m[o.uuid := Stamp(o.updated, o.uuid, slug)] else m
  }

  /** What processResult does to the missing list with one outcome. */
  function AddMissing(ms: seq<UIdentity>, o: ItemResult): seq<UIdentity>
  {
    if o.Looked? && o.uuid == "" then ms + [o.updated] else ms
  }

  /** uidentitiesMap, which held m0 before, after processResult has seen the outcomes
      in order. */
  function ResolvedMap(m0: map<string, UIdentity>, outs: seq<ItemResult>, slug: Option<string>): map<string, UIdentity>
  {
    if outs == [] then m0
    else AddResolved(ResolvedMap(m0, outs[..|outs| - 1], slug), outs[|outs| - 1], slug)
  }

  /** The missing list after processResult has seen the outcomes in order. */
  function MissingList(outs: seq<ItemResult>): seq<UIdentity>
  {
    if outs == [] then []
    else AddMissing(MissingList(outs[..|outs| - 1]), outs[|outs| - 1])
  }

  /** What uidentitiesAry[i] holds once record i has been processed: the aliases and
      default dates processItem wrote through the shared slices, stamped only when
      processResult files the record under its uuid. */
  function FinalRecord(u: UIdentity, o: ItemResult, slug: Option<string>): UIdentity
  {
    match o
    case Looked(v, uid) => if uid == "" || uid == SkipMarker then v else Stamp(v, uid, slug)
    case _ => u
  }

  predicate NoFatal(outs: seq<ItemResult>)
  {
    forall i :: 0 <= i < |outs| ==> !outs[i].ItemFatal?
  }

  /** processResult for an outcome that is not fatal: records the updated (and, when
      resolved, stamped) record in its array slot and files it under its uuid or in the
      missing list. */
  method ProcessResult(out: ItemResult, rec: UIdentity, slug: Option<string>,
                       resolved: map<string, UIdentity>, missing: seq<UIdentity>)
    returns (rec': UIdentity, resolved': map<string, UIdentity>, missing': seq<UIdentity>)
    requires !out.ItemFatal?
    ensures rec' == FinalRecord(rec, out, slug)
    ensures resolved' == AddResolved(resolved, out, slug) && missing' == AddMissing(missing, out)
  {
    rec', resolved', missing' := rec, resolved, missing;
    if out.Looked? {
      rec' := out.updated;
      if out.uuid == SkipMarker {
        return;
      }
      if out.uuid != "" {
        rec' := SetUUID(rec', out.uuid, slug);
        resolved' := resolved'[out.uuid := rec'];
      } else {
        missing' := missing' + [rec'];
      }
    }
  }

  /** The loop body of postprocessIdentities once the outcome of record i is known
      not to be fatal: processResult, with the record written back to its slot. */
  method FileRecord(out: ItemResult, recs: array<UIdentity>, i: nat, slug: Option<string>,
                    resolved: map<string, UIdentity>, missing: seq<UIdentity>)
    returns (resolved': map<string, UIdentity>, missing': seq<UIdentity>)
    requires i < recs.Length && !out.ItemFatal?
    modifies recs
    ensures recs[i] == FinalRecord(old(recs[i]), out, slug)
    ensures forall k :: 0 <= k < recs.Length && k != i ==> recs[k] == old(recs[k])
    ensures resolved' == AddResolved(resolved, out, slug) && missing' == AddMissing(missing, out)
  {
    var rec;
    rec, resolved', missing' := ProcessResult(out, recs[i], slug, resolved, missing);
    recs[i] := rec;
  }

  /** One more outcome seen: the map and the list grow by that outcome alone. */
  lemma ResolvedStep(m0: map<string, UIdentity>, outs: seq<ItemResult>, slug: Option<string>, i: nat)
    requires i < |outs|
    ensures ResolvedMap(m0, outs[..i + 1], slug) == AddResolved(ResolvedMap(m0, outs[..i], slug), outs[i], slug)
    ensures MissingList(outs[..i + 1]) == AddMissing(MissingList(outs[..i]), outs[i])
  {
    assert outs[..i + 1][..i] == outs[..i];
  }

  /** postprocessIdentities in sequential mode over the records of one file: recs is
      uidentitiesAry (updated in place), docs the loosely typed decode of the same file,
      known what uidentitiesMap holds when the pass starts. The import passes a fresh,
      empty map for every file and keeps the maps of the files apart. */
  method PostprocessIdentities(rows: Rows, recs: array<UIdentity>, docs: seq<Doc>, slug: Option<string>,
                               known: map<string, UIdentity>)
    returns (res: Result<(map<string, UIdentity>, seq<UIdentity>)>)
    requires |docs| == recs.Length
    modifies recs
    ensures var outs := Outcomes(rows, old(recs[..]), docs);
      (res.Fatal? <==> !NoFatal(outs))
      && (res.Ok? ==>
            res.value == (ResolvedMap(known, outs, slug), MissingList(outs))
            && forall i :: 0 <= i < recs.Length ==> recs[i] == FinalRecord(old(recs[i]), outs[i], slug))
  {
    ghost var orig := recs[..];
    ghost var outs := Outcomes(rows, orig, docs);
    var resolved := known;
    var missing: seq<UIdentity> := [];
    var i := 0;
    while i < recs.Length
      invariant 0 <= i <= recs.Length
      invariant forall k :: 0 <= k < i ==> !outs[k].ItemFatal?
      invariant resolved == ResolvedMap(known, outs[..i], slug) && missing == MissingList(outs[..i])
      invariant forall k :: 0 <= k < i ==> recs[k] == FinalRecord(orig[k], outs[k], slug)
      invariant forall k :: i <= k < recs.Length ==> recs[k] == orig[k]
      decreases recs.Length - i
    {
      var out := ProcessItem(rows, recs[i], docs[i]);
      assert out == outs[i];
      if out.ItemFatal? {
        return Fatal(out.reason);
      }
      ResolvedStep(known, outs, slug, i);
      resolved, missing := FileRecord(out, recs, i, slug, resolved, missing);
      i := i + 1;
    }
    assert outs[..i] == outs;
    res := Ok((resolved, missing));
  }

  /** An outcome carrying the "skip" uuid is neither filed nor listed as missing, and
      its record is not stamped. */
  lemma SkipNotFiled(m: map<string, UIdentity>, ms: seq<UIdentity>, u: UIdentity, v: UIdentity, slug: Option<string>)
    ensures AddResolved(m, Looked(v, SkipMarker), slug) == m
    ensures AddMissing(ms, Looked(v, SkipMarker)) == ms
    ensures FinalRecord(u, Looked(v, SkipMarker), slug) == v
    ensures AddResolved(m, Skip, slug) == m && AddMissing(ms, Skip) == ms && FinalRecord(u, Skip, slug) == u
  {
  }

  /** A uuid is in the map exactly when it was there before or some record resolved
      to it. */
  lemma {:induction false} ResolvedKeys(m0: map<string, UIdentity>, outs: seq<ItemResult>, slug: Option<string>, uid: string)
    ensures uid in ResolvedMap(m0, outs, slug) <==>
      uid in m0 || exists i :: 0 <= i < |outs| && Resolves(outs[i], uid)
  {
    if outs != [] {
      var n := |outs| - 1;
      var pre := outs[..n];
      ResolvedKeys(m0, pre, slug, uid);
      assert forall i :: 0 <= i < n ==> pre[i] == outs[i];
    }
  }

  /** Last writer wins: the map holds the stamped record of the last record that
      resolved to the uuid. */
  lemma {:induction false} LastWriterWins(m0: map<string, UIdentity>, outs: seq<ItemResult>, slug: Option<string>,
                                          uid: string, i: nat)
    requires i < |outs| && Resolves(outs[i], uid)
    requires forall j :: i < j < |outs| ==> !Resolves(outs[j], uid)
    ensures uid in ResolvedMap(m0, outs, slug)
    ensures ResolvedMap(m0, outs, slug)[uid] == Stamp(outs[i].updated, uid, slug)
  {
    var n := |outs| - 1;
    if i < n {
      var pre := outs[..n];
      assert pre[i] == outs[i];
      LastWriterWins(m0, pre, slug, uid, i);
    }
  }

  /** An entry no record of this file resolves to is left as it was. */
  lemma {:induction false} ResolvedUntouched(m0: map<string, UIdentity>, outs: seq<ItemResult>, slug: Option<string>,
                                             uid: string)
    requires uid in m0
    requires forall j :: 0 <= j < |outs| ==> !Resolves(outs[j], uid)
    ensures uid in ResolvedMap(m0, outs, slug) && ResolvedMap(m0, outs, slug)[uid] == m0[uid]
  {
    if outs != [] {
      var n := |outs| - 1;
      var pre := outs[..n];
      assert forall j :: 0 <= j < n ==> pre[j] == outs[j];
      ResolvedUntouched(m0, pre, slug, uid);
    }
  }

  /** Every record of uidentitiesMap carries its key as uuid and the run's project slug. */
  predicate StampedMap(m: map<string, UIdentity>, slug: Option<string>)
  {
    forall uid :: uid in m ==> uid != "" && uid != SkipMarker && Stamped(m[uid], uid, slug)
  }

  lemma {:induction false} ResolvedStamped(m0: map<string, UIdentity>, outs: seq<ItemResult>, slug: Option<string>)
    requires StampedMap(m0, slug)
    ensures StampedMap(ResolvedMap(m0, outs, slug), slug)
  {
    if outs != [] {
      ResolvedStamped(m0, outs[..|outs| - 1], slug);
    }
  }

  /** The missing list holds, in order, exactly the records no strategy resolved. */
  lemma {:induction false} MissingExactly(outs: seq<ItemResult>)
    ensures forall x :: x in MissingList(outs) <==> exists i :: 0 <= i < |outs| && outs[i] == Looked(x, "")
  {
    if outs != [] {
      var n := |outs| - 1;
      var pre := outs[..n];
      MissingExactly(pre);
      assert forall i :: 0 <= i < n ==> pre[i] == outs[i];
    }
  }
}
