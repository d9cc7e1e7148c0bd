/** processUIdentity: reconcile one resolved record with the store. It counts what it
    finds (identity, profile, aliases, enrollments), compares in compare mode, and
    decides between deleting the stored enrollments of the record's uuid and project
    slug and inserting the record's own; then it merges its counters into the batch
    total. The store is a set of query functions plus the enrollment writes it
    receives; NFKD normalisation is passed in. */
module Reconcile {
  import opened Wrappers
  import opened Text
  import opened Records

  // ---- statistics ----

  /** importStats: the eleven counters of a run. */
  datatype Stats = Stats(
    uidentitiesFound: nat,
    uidentitiesNotFound: nat,
    profilesFound: nat,
    profilesSame: nat,
    identitiesFound: nat,
    identitiesSame: nat,
    enrollmentsFound: nat,
    enrollmentsAdded: nat,
    enrollmentsSame: nat,
    enrollmentsSkipped: nat,
    enrollmentsDeleted: nat)

  const NoStats := Stats(0, 0, 0, 0, 0, 0, 0, 0, 0, 0, 0)

  /** The deferred merge: every counter of the delta is added to the total. */
  function Add(a: Stats, d: Stats): Stats
  {
    Stats(a.uidentitiesFound + d.uidentitiesFound, a.uidentitiesNotFound + d.uidentitiesNotFound,
          a.profilesFound + d.profilesFound, a.profilesSame + d.profilesSame,
          a.identitiesFound + d.identitiesFound, a.identitiesSame + d.identitiesSame,
          a.enrollmentsFound + d.enrollmentsFound, a.enrollmentsAdded + d.enrollmentsAdded,
          a.enrollmentsSame + d.enrollmentsSame, a.enrollmentsSkipped + d.enrollmentsSkipped,
          a.enrollmentsDeleted + d.enrollmentsDeleted)
  }

  /** The batch total after merging the deltas in order. */
  function Sum(ds: seq<Stats>): Stats
  {
    if ds == [] then NoStats else Add(Sum(ds[..|ds| - 1]), ds[|ds| - 1])
  }

  lemma AddAssociative(a: Stats, b: Stats, c: Stats)
    ensures Add(Add(a, b), c) == Add(a, Add(b, c))
  {
  }

  lemma AddCommutative(a: Stats, b: Stats)
    ensures Add(a, b) == Add(b, a)
  {
  }

  lemma AddNoStats(a: Stats)
    ensures Add(a, NoStats) == a && Add(NoStats, a) == a
  {
  }

  lemma {:induction false} SumAppend(a: seq<Stats>, b: seq<Stats>)
    ensures Sum(a + b) == Add(Sum(a), Sum(b))
  {
    if b == [] {
      assert a + b == a;
      AddNoStats(Sum(a));
    } else {
      var n := |b| - 1;
      assert (a + b)[..|a + b| - 1] == a + b[..n];
      assert (a + b)[|a + b| - 1] == b[n];
      SumAppend(a, b[..n]);
      AddAssociative(Sum(a), Sum(b[..n]), b[n]);
    }
  }

  /** The order in which workers finish does not matter: any reordering of the deltas
      merges to the same total, so the sequential run and a parallel one agree. */
  lemma {:induction false} SumPermutation(ds1: seq<Stats>, ds2: seq<Stats>)
    requires multiset(ds1) == multiset(ds2)
    ensures Sum(ds1) == Sum(ds2)
    decreases |ds1|
  {
    if ds1 == [] {
      assert |ds2| == |multiset(ds2)| == 0;
    } else {
      var n := |ds1| - 1;
      var x := ds1[n];
      assert ds1 == ds1[..n] + [x];
      assert multiset(ds1) == multiset(ds1[..n]) + multiset{x};
      assert x in multiset(ds2);
      var k :| 0 <= k < |ds2| && ds2[k] == x;
      var left, right := ds2[..k], ds2[k + 1..];
      var rest := left + right;
      assert ds2 == left + [x] + right;
      assert multiset(ds2) == multiset(left) + multiset{x} + multiset(right);
      assert multiset(rest) == multiset(left) + multiset(right);
      assert multiset(rest) == multiset(ds2) - multiset{x};
      assert multiset(ds1[..n]) == multiset(ds1) - multiset{x};
      SumPermutation(ds1[..n], rest);
      SumAppend(left + [x], right);
      SumAppend(left, [x]);
      SumAppend(left, right);
      assert Sum([x]) == Add(NoStats, x) by {
        assert [x][..0] == [];
      }
      AddAssociative(Sum(left), x, Sum(right));
      AddCommutative(x, Sum(right));
      AddAssociative(Sum(left), Sum(right), x);
    }
  }

  /** The batch total, a shared struct the deferred merge updates field by field. */
  class BatchStats {
    var uidentitiesFound: nat
    var uidentitiesNotFound: nat
    var profilesFound: nat
    var profilesSame: nat
    var identitiesFound: nat
    var identitiesSame: nat
    var enrollmentsFound: nat
    var enrollmentsAdded: nat
    var enrollmentsSame: nat
    var enrollmentsSkipped: nat
    var enrollmentsDeleted: nat

    ghost function Value(): Stats
      reads this
    {
      Stats(uidentitiesFound, uidentitiesNotFound, profilesFound, profilesSame, identitiesFound,
            identitiesSame, enrollmentsFound, enrollmentsAdded, enrollmentsSame, enrollmentsSkipped,
            enrollmentsDeleted)
    }

    constructor ()
      ensures Value() == NoStats
    {
      uidentitiesFound, uidentitiesNotFound, profilesFound, profilesSame := 0, 0, 0, 0;
      identitiesFound, identitiesSame, enrollmentsFound, enrollmentsAdded := 0, 0, 0, 0;
      enrollmentsSame, enrollmentsSkipped, enrollmentsDeleted := 0, 0, 0;
    }

    /** The deferred merge of processUIdentity. */
    method Merge(d: Stats)
      modifies this
      ensures Value() == Add(old(Value()), d)
    {
      AddEach(d);
    }

    /** The eleven `+=` of the merge, one counter at a time. */
    method AddEach(d: Stats)
      modifies this
      ensures uidentitiesFound == old(uidentitiesFound) + d.uidentitiesFound
      ensures uidentitiesNotFound == old(uidentitiesNotFound) + d.uidentitiesNotFound
      ensures profilesFound == old(profilesFound) + d.profilesFound
      ensures profilesSame == old(profilesSame) + d.profilesSame
      ensures identitiesFound == old(identitiesFound) + d.identitiesFound
      ensures identitiesSame == old(identitiesSame) + d.identitiesSame
      ensures enrollmentsFound == old(enrollmentsFound) + d.enrollmentsFound
      ensures enrollmentsAdded == old(enrollmentsAdded) + d.enrollmentsAdded
      ensures enrollmentsSame == old(enrollmentsSame) + d.enrollmentsSame
      ensures enrollmentsSkipped == old(enrollmentsSkipped) + d.enrollmentsSkipped
      ensures enrollmentsDeleted == old(enrollmentsDeleted) + d.enrollmentsDeleted
    {
      uidentitiesFound := uidentitiesFound + d.uidentitiesFound;
      uidentitiesNotFound := uidentitiesNotFound + d.uidentitiesNotFound;
      profilesFound := profilesFound + d.profilesFound;
      profilesSame := profilesSame + d.profilesSame;
      identitiesFound := identitiesFound + d.identitiesFound;
      identitiesSame := identitiesSame + d.identitiesSame;
      enrollmentsFound := enrollmentsFound + d.enrollmentsFound;
      enrollmentsSame := enrollmentsSame + d.enrollmentsSame;
      enrollmentsAdded := enrollmentsAdded + d.enrollmentsAdded;
      enrollmentsSkipped := enrollmentsSkipped + d.enrollmentsSkipped;
      enrollmentsDeleted := enrollmentsDeleted + d.enrollmentsDeleted;
    }
  }

  // ---- comparisons ----

  /** profilesDiffer: the stripped names differ, or both bot flags are set and differ. */
  function ProfilesDiffer(nfkd: Normalizer, p1: Profile, p2: Profile): bool
  {
    StripUnicode(nfkd, p1.name) != StripUnicode(nfkd, p2.name)
    || (p1.isBot.Some? && p2.isBot.Some? && p1.isBot.value != p2.isBot.value)
  }

  /** profilesDiffer is symmetric, false for a profile and itself, ignores the uuid,
      and a bot flag missing on either side is never a difference. */
  lemma ProfilesDifferProperties(nfkd: Normalizer, p1: Profile, p2: Profile)
    ensures ProfilesDiffer(nfkd, p1, p2) == ProfilesDiffer(nfkd, p2, p1)
    ensures !ProfilesDiffer(nfkd, p1, p1)
    ensures ProfilesDiffer(nfkd, p1.(uuid := p2.uuid), p2) == ProfilesDiffer(nfkd, p1, p2)
    ensures p1.isBot.None? || p2.isBot.None? ==>
      (ProfilesDiffer(nfkd, p1, p2) <==> StripUnicode(nfkd, p1.name) != StripUnicode(nfkd, p2.name))
  {
  }

  /** The set of f's values over a list, built element by element. */
  function Image<T>(f: T -> string, xs: seq<T>): set<string>
  {
    if xs == [] then {} else Image(f, xs[..|xs| - 1]) + {f(xs[|xs| - 1])}
  }

  lemma {:induction false} ImageMembers<T>(f: T -> string, xs: seq<T>, k: string)
    ensures k in Image(f, xs) <==> exists i :: 0 <= i < |xs| && f(xs[i]) == k
  {
    if xs != [] {
      var n := |xs| - 1;
      var prefix := xs[..n];
      ImageMembers(f, prefix, k);
      if k in Image(f, xs) {
        if k in Image(f, prefix) {
          var i :| 0 <= i < n && f(prefix[i]) == k;
          assert prefix[i] == xs[i];
        }
      } else {
        forall i | 0 <= i < |xs|
          ensures f(xs[i]) != k
        {
          if i < n {
            assert prefix[i] == xs[i];
          }
        }
      }
    }
  }

  lemma ImageStep<T>(f: T -> string, xs: seq<T>, i: nat)
    requires i < |xs|
    ensures Image(f, xs[..i + 1]) == Image(f, xs[..i]) + {f(xs[i])}
  {
    assert xs[..i + 1][..i] == xs[..i];
  }

  /** The keys enrollmentsDiffer puts in its maps: the renderings of the list. */
  function Keys(es: seq<Enrollment>): set<string>
  {
    Image(EnrollmentString, es)
  }

  /** A key is in the map exactly when some enrollment of the list renders to it. */
  lemma KeysMembers(es: seq<Enrollment>, k: string)
    ensures k in Keys(es) <==> exists i :: 0 <= i < |es| && EnrollmentString(es[i]) == k
  {
    ImageMembers(EnrollmentString, es, k);
  }

  /** enrollmentsDiffer: the two lists' key maps are not the same set. */
  predicate EnrollmentsDiffer(e1: seq<Enrollment>, e2: seq<Enrollment>)
  {
    Keys(e1) != Keys(e2)
  }

  /** The source's own formulation: some key of one list is missing from the other. */
  lemma EnrollmentsDifferSearch(e1: seq<Enrollment>, e2: seq<Enrollment>)
    ensures EnrollmentsDiffer(e1, e2) <==>
      (exists i :: 0 <= i < |e1| && EnrollmentString(e1[i]) !in Keys(e2))
      || (exists j :: 0 <= j < |e2| && EnrollmentString(e2[j]) !in Keys(e1))
  {
    if Keys(e1) != Keys(e2) {
      if k :| k in Keys(e1) && k !in Keys(e2) {
        KeysMembers(e1, k);
      } else {
        var k :| k in Keys(e2) && k !in Keys(e1);
        KeysMembers(e2, k);
      }
    } else {
      forall i | 0 <= i < |e1|
        ensures EnrollmentString(e1[i]) in Keys(e2)
      {
        KeysMembers(e1, EnrollmentString(e1[i]));
      }
      forall j | 0 <= j < |e2|
        ensures EnrollmentString(e2[j]) in Keys(e1)
      {
        KeysMembers(e2, EnrollmentString(e2[j]));
      }
    }
  }

  /** enrollmentsDiffer is blind to order and repetition: lists with the same
      elements never differ. */
  lemma EnrollmentsDifferSameElements(e1: seq<Enrollment>, e2: seq<Enrollment>)
    requires forall e :: e in e1 <==> e in e2
    ensures !EnrollmentsDiffer(e1, e2)
  {
    forall k | k in Keys(e1)
      ensures k in Keys(e2)
    {
      KeysMembers(e1, k);
      var i :| 0 <= i < |e1| && EnrollmentString(e1[i]) == k;
      assert e1[i] in e2;
      var j :| 0 <= j < |e2| && e2[j] == e1[i];
      KeysMembers(e2, k);
    }
    forall k | k in Keys(e2)
      ensures k in Keys(e1)
    {
      KeysMembers(e2, k);
      var j :| 0 <= j < |e2| && EnrollmentString(e2[j]) == k;
      assert e2[j] in e1;
      var i :| 0 <= i < |e1| && e1[i] == e2[j];
      KeysMembers(e1, k);
    }
  }

  /** The key map of one list, built by enrollmentsDiffer's loop. */
  method CollectKeys(es: seq<Enrollment>) returns (m: set<string>)
    ensures m == Keys(es)
  {
    m := {};
    var i := 0;
    while i < |es|
      invariant 0 <= i <= |es|
      invariant m == Keys(es[..i])
    {
      ImageStep(EnrollmentString, es, i);
      m := m + {EnrollmentString(es[i])};
      i := i + 1;
    }
    assert es[..i] == es;
  }

  /** enrollmentsDiffer as the source computes it: both key maps, then a search of
      each for a key the other lacks. */
  method CompareEnrollments(e1: seq<Enrollment>, e2: seq<Enrollment>) returns (differ: bool)
    ensures differ == EnrollmentsDiffer(e1, e2)
  {
    var m1 := CollectKeys(e1);
    var m2 := CollectKeys(e2);
    var rest := m1;
    while rest != {}
      invariant rest <= m1
      invariant forall k :: k in m1 && k !in rest ==> k in m2
      decreases |rest|
    {
      var k1 :| k1 in rest;
      if k1 !in m2 {
        return true;
      }
      rest := rest - {k1};
    }
    rest := m2;
    while rest != {}
      invariant rest <= m2
      invariant forall k :: k in m2 && k !in rest ==> k in m1
      decreases |rest|
    {
      var k2 :| k2 in rest;
      if k2 !in m1 {
        return true;
      }
      rest := rest - {k2};
    }
    assert m1 == m2;
    return false;
  }

  // ---- the store ----

  /** A stored enrollment as compare mode reads it. */
  datatype EnrollmentRow = EnrollmentRow(uuid: string, orgId: int, start: Time, end: Time, projectSlug: Option<string>)

  /** The store's answers to processUIdentity's queries: uidentities by uuid, profiles
      by uuid, identity emails by (uuid, source, username), and enrollments by (uuid,
      project slug) where None is `project_slug is null`. */
  datatype Db = Db(
    uidentities: string -> seq<string>,
    profiles: string -> seq<Profile>,
    identityEmails: ((string, string, string)) -> seq<string>,
    enrollments: ((string, Option<string>)) -> seq<EnrollmentRow>)

  /** The writes processUIdentity issues. */
  datatype Action =
    | DeleteEnrollments(uuid: string, slug: Option<string>)
    | InsertEnrollment(row: EnrollmentRow)

  function ApplyOne(f: ((string, Option<string>)) -> seq<EnrollmentRow>, a: Action): ((string, Option<string>)) -> seq<EnrollmentRow>
  {
    match a
    case DeleteEnrollments(uuid, slug) => k => if k == (uuid, slug) then [] else f(k)
    case InsertEnrollment(row) => k => if k == (row.uuid, row.projectSlug) then f(k) + [row] else f(k)
  }

  function ApplyAll(f: ((string, Option<string>)) -> seq<EnrollmentRow>, acts: seq<Action>): ((string, Option<string>)) -> seq<EnrollmentRow>
  {
    if acts == [] then f else ApplyAll(ApplyOne(f, acts[0]), acts[1..])
  }

  /** The store after the writes, in order. */
  function Apply(db: Db, acts: seq<Action>): Db
  {
    db.(enrollments := ApplyAll(db.enrollments, acts))
  }

  // ---- the alias comparison ----

  /** The emails map of processUIdentity: the stripped emails of the record. */
  function EmailSet(nfkd: Normalizer, emails: seq<string>): set<string>
  {
    set i | 0 <= i < |emails| :: StripUnicode(nfkd, emails[i])
  }

  /** Found and same counts of the alias comparison. */
  datatype Tally = Tally(found: nat, same: nat)

  function Plus(a: Tally, b: Tally): Tally
  {
    Tally(a.found + b.found, a.same + b.same)
  }

  /** One user name: a stored email was found, and it is one of the record's emails. */
  function IdentityCheck(db: Db, nfkd: Normalizer, uuid: string, emails: set<string>, source: string, name: string): (r: Tally)
    ensures r.same <= r.found <= 1
  {
    var rows := db.identityEmails((uuid, source, StripUnicode(nfkd, name)));
    if rows == [] then Tally(0, 0) else Tally(1, if StripUnicode(nfkd, rows[0]) in emails then 1 else 0)
  }

  function NameCounts(db: Db, nfkd: Normalizer, uuid: string, emails: set<string>, source: string, names: seq<string>): (r: Tally)
    ensures r.same <= r.found <= |names|
  {
    if names == [] then Tally(0, 0)
    else
      Plus(NameCounts(db, nfkd, uuid, emails, source, names[..|names| - 1]),
           IdentityCheck(db, nfkd, uuid, emails, source, names[|names| - 1]))
  }

  /** The number of user names over all sources. */
  function Usernames(idents: seq<Ident>): nat
  {
    if idents == [] then 0 else Usernames(idents[..|idents| - 1]) + |idents[|idents| - 1].usernames|
  }

  function IdentCounts(db: Db, nfkd: Normalizer, uuid: string, emails: set<string>, idents: seq<Ident>): (r: Tally)
    ensures r.same <= r.found <= Usernames(idents)
  {
    if idents == [] then Tally(0, 0)
    else
      var last := idents[|idents| - 1];
      Plus(IdentCounts(db, nfkd, uuid, emails, idents[..|idents| - 1]),
           NameCounts(db, nfkd, uuid, emails, last.source, last.usernames))
  }

  /** identitiesFound and identitiesSame: only in compare mode and only for a record
      with at least one email; at most one of each per user name, and no more same
      than found. */
  function IdentityCounts(db: Db, nfkd: Normalizer, u: UIdentity, compare: bool): (r: Tally)
    ensures r.same <= r.found <= Usernames(u.idents)
    ensures !compare || |u.emails| == 0 ==> r == Tally(0, 0)
  {
    var emails := EmailSet(nfkd, u.emails);
    assert |u.emails| > 0 ==> StripUnicode(nfkd, u.emails[0]) in emails;
    if |emails| > 0 && compare then IdentCounts(db, nfkd, u.uuid, emails, u.idents) else Tally(0, 0)
  }

  /** The emails map of processUIdentity, built by its loop. */
  method CollectEmails(nfkd: Normalizer, emails: seq<string>) returns (r: set<string>)
    ensures r == EmailSet(nfkd, emails)
  {
    r := {};
    var e := 0;
    while e < |emails|
      invariant 0 <= e <= |emails|
      invariant r == EmailSet(nfkd, emails[..e])
    {
      r := r + {StripUnicode(nfkd, emails[e])};
      e := e + 1;
      assert emails[..e] == emails[..e - 1] + [emails[e - 1]];
    }
    assert emails[..e] == emails;
  }

  lemma NameCountsStep(db: Db, nfkd: Normalizer, uuid: string, emails: set<string>, source: string, names: seq<string>, j: nat)
    requires j < |names|
    ensures NameCounts(db, nfkd, uuid, emails, source, names[..j + 1])
      == Plus(NameCounts(db, nfkd, uuid, emails, source, names[..j]), IdentityCheck(db, nfkd, uuid, emails, source, names[j]))
  {
    assert names[..j + 1][..j] == names[..j];
  }

  /** The user-name loop for one source. */
  method CountNames(db: Db, nfkd: Normalizer, uuid: string, emails: set<string>, source: string, names: seq<string>)
    returns (t: Tally)
    ensures t == NameCounts(db, nfkd, uuid, emails, source, names)
  {
    t := Tally(0, 0);
    var j := 0;
    while j < |names|
      invariant 0 <= j <= |names|
      invariant t == NameCounts(db, nfkd, uuid, emails, source, names[..j])
    {
      ghost var before := t;
      var rows := db.identityEmails((uuid, source, StripUnicode(nfkd, names[j])));
      if rows != [] {
        var eemail := StripUnicode(nfkd, rows[0]);
        t := t.(found := t.found + 1);
        if eemail in emails {
          t := t.(same := t.same + 1);
        }
      }
      assert t == Plus(before, IdentityCheck(db, nfkd, uuid, emails, source, names[j]));
      NameCountsStep(db, nfkd, uuid, emails, source, names, j);
      j := j + 1;
    }
    assert names[..j] == names;
  }

  /** The alias loop of processUIdentity. */
  method CountIdentities(db: Db, nfkd: Normalizer, u: UIdentity, compare: bool) returns (t: Tally)
    ensures t == IdentityCounts(db, nfkd, u, compare)
  {
    t := Tally(0, 0);
    var emails := CollectEmails(nfkd, u.emails);
    if |emails| == 0 || !compare {
      return;
    }
    var i := 0;
    assert u.idents[..i] == [];
    while i < |u.idents|
      invariant 0 <= i <= |u.idents|
      invariant t == IdentCounts(db, nfkd, u.uuid, emails, u.idents[..i])
    {
      var n := CountNames(db, nfkd, u.uuid, emails, u.idents[i].source, u.idents[i].usernames);
      t := Plus(t, n);
      assert u.idents[..i + 1][..i] == u.idents[..i];
      i := i + 1;
    }
    assert u.idents[..i] == u.idents;
  }

  // ---- stored enrollments ----

  /** A stored row with its organization name taken from id2comp. */
  function AsEnrollment(row: EnrollmentRow, organization: string): Enrollment
  {
    Enrollment(organization, row.start, row.end, row.uuid, row.orgId, row.projectSlug)
  }

  function UnknownOrgId(id: int): string
  {
    "organization id " + FormatInt(id, 0) + " not found"
  }

  /** The stored enrollments in compare mode: fatal at the first row whose organization
      id id2comp does not know. */
  function ExistingEnrollments(rows: seq<EnrollmentRow>, id2comp: map<int, string>): (r: Result<seq<Enrollment>>)
    ensures r.Fatal? <==> exists i :: 0 <= i < |rows| && rows[i].orgId !in id2comp
    ensures r.Ok? ==>
      |r.value| == |rows| && forall i :: 0 <= i < |rows| ==> r.value[i] == AsEnrollment(rows[i], id2comp[rows[i].orgId])
  {
    if rows == [] then Ok([])
    else
      var n := |rows| - 1;
      match ExistingEnrollments(rows[..n], id2comp)
      case Fatal(m) =>
        assert exists i :: 0 <= i < n && rows[..n][i].orgId !in id2comp;
        Fatal(m)
      case Ok(es) =>
        if rows[n].orgId !in id2comp then Fatal(UnknownOrgId(rows[n].orgId))
        else Ok(es + [AsEnrollment(rows[n], id2comp[rows[n].orgId])])
  }

  /** The row loop of the compare-mode enrollment query. */
  method ReadExisting(rows: seq<EnrollmentRow>, id2comp: map<int, string>) returns (r: Result<seq<Enrollment>>)
    ensures r == ExistingEnrollments(rows, id2comp)
  {
    var existing: seq<Enrollment> := [];
    var i := 0;
    while i < |rows|
      invariant 0 <= i <= |rows|
      invariant ExistingEnrollments(rows[..i], id2comp) == Ok(existing)
    {
      assert rows[..i + 1][..i] == rows[..i];
      if rows[i].orgId !in id2comp {
        ghost var pre := rows[..i + 1];
        assert pre[i] == rows[i];
        assert ExistingEnrollments(pre, id2comp).Fatal?;
        ExistingPrefixFatal(rows, id2comp, i + 1);
        return Fatal(UnknownOrgId(rows[i].orgId));
      }
      existing := existing + [AsEnrollment(rows[i], id2comp[rows[i].orgId])];
      i := i + 1;
    }
    assert rows[..i] == rows;
    r := Ok(existing);
  }

  /** Once a prefix is fatal, the whole row list is fatal with the same reason. */
  lemma {:induction false} ExistingPrefixFatal(rows: seq<EnrollmentRow>, id2comp: map<int, string>, k: nat)
    requires k <= |rows|
    requires ExistingEnrollments(rows[..k], id2comp).Fatal?
    ensures ExistingEnrollments(rows, id2comp) == ExistingEnrollments(rows[..k], id2comp)
    decreases |rows| - k
  {
    if k < |rows| {
      assert rows[..k + 1][..k] == rows[..k];
      ExistingPrefixFatal(rows, id2comp, k + 1);
    } else {
      assert rows[..k] == rows;
    }
  }

  // ---- getCompIds ----

  /** getCompIds on one enrollment: a known organization gets its id and, when id2comp
      names that id, the canonical name. */
  function ResolveOrg(comp2id: map<string, int>, id2comp: map<int, string>, e: Enrollment): (r: Enrollment)
    ensures e.organization !in comp2id ==> r == e
    ensures e.organization in comp2id ==> r.orgId == comp2id[e.organization]
    ensures r.(organization := e.organization, orgId := e.orgId) == e
    ensures Coherent(comp2id, id2comp) && e.organization in comp2id ==>
      r.organization in comp2id && comp2id[r.organization] == r.orgId && r.orgId in id2comp
  {
    if e.organization !in comp2id then e
    else
      var cid := comp2id[e.organization];
      if cid in id2comp then e.(orgId := cid, organization := id2comp[cid]) else e.(orgId := cid)
  }

  function CompIds(comp2id: map<string, int>, id2comp: map<int, string>, es: seq<Enrollment>): (r: seq<Enrollment>)
    ensures |r| == |es| && forall i :: 0 <= i < |es| ==> r[i] == ResolveOrg(comp2id, id2comp, es[i])
  {
    seq(|es|, i requires 0 <= i < |es| => ResolveOrg(comp2id, id2comp, es[i]))
  }

  /** getCompIds, which rewrites the record's enrollments in place. */
  method GetCompIds(comp2id: map<string, int>, id2comp: map<int, string>, es: seq<Enrollment>) returns (r: seq<Enrollment>)
    ensures r == CompIds(comp2id, id2comp, es)
  {
    r := es;
    var i := 0;
    while i < |r|
      invariant 0 <= i <= |r| == |es|
      invariant forall k :: 0 <= k < i ==> r[k] == ResolveOrg(comp2id, id2comp, es[k])
      invariant forall k :: i <= k < |r| ==> r[k] == es[k]
    {
      var org := r[i].organization;
      if org in comp2id {
        var orgID := comp2id[org];
        r := r[i := r[i].(orgId := orgID)];
        if orgID in id2comp {
          var canonical := id2comp[orgID];
          if canonical != org {
            r := r[i := r[i].(organization := canonical)];
          }
        }
      }
      i := i + 1;
    }
  }

  /** With coherent indexes getCompIds is idempotent. */
  lemma CompIdsIdempotent(comp2id: map<string, int>, id2comp: map<int, string>, es: seq<Enrollment>)
    requires Coherent(comp2id, id2comp)
    ensures CompIds(comp2id, id2comp, CompIds(comp2id, id2comp, es)) == CompIds(comp2id, id2comp, es)
  {
    var once := CompIds(comp2id, id2comp, es);
    forall i | 0 <= i < |es|
      ensures ResolveOrg(comp2id, id2comp, once[i]) == once[i]
    {
      if es[i].organization in comp2id {
        var cid := comp2id[es[i].organization];
        assert once[i].organization == id2comp[cid];
      }
    }
  }

  // ---- inserts ----

  /** The row inserted for an enrollment: its uuid, org id and dates, and the run's slug. */
  function InsertRow(e: Enrollment, slug: Option<string>): EnrollmentRow
  {
    EnrollmentRow(e.uuid, e.orgId, e.start, e.end, slug)
  }

  /** The insert loop: an enrollment with an org id of at most 0 is skipped. */
  function Inserts(es: seq<Enrollment>, slug: Option<string>): (acts: seq<Action>)
    ensures |acts| <= |es|
    ensures forall k :: 0 <= k < |acts| ==>
      acts[k].InsertEnrollment? && acts[k].row.orgId > 0 && acts[k].row.projectSlug == slug
  {
    if es == [] then []
    else
      var n := |es| - 1;
      Inserts(es[..n], slug) + (if es[n].orgId <= 0 then [] else [InsertEnrollment(InsertRow(es[n], slug))])
  }

  function Skipped(es: seq<Enrollment>): (r: nat)
    ensures r <= |es|
  {
    if es == [] then 0 else Skipped(es[..|es| - 1]) + (if es[|es| - 1].orgId <= 0 then 1 else 0)
  }

  /** Every enrollment is either inserted or counted as skipped, and every enrollment
      with a positive org id is inserted. */
  lemma {:induction false} InsertsAccount(es: seq<Enrollment>, slug: Option<string>)
    ensures |Inserts(es, slug)| + Skipped(es) == |es|
    ensures forall k :: 0 <= k < |es| && es[k].orgId > 0 ==> InsertEnrollment(InsertRow(es[k], slug)) in Inserts(es, slug)
  {
    if es != [] {
      var n := |es| - 1;
      InsertsAccount(es[..n], slug);
      forall k | 0 <= k < |es| && es[k].orgId > 0
        ensures InsertEnrollment(InsertRow(es[k], slug)) in Inserts(es, slug)
      {
        if k < n {
          assert es[..n][k] == es[k];
        }
      }
    }
  }

  /** With no positive org id nothing is inserted and every enrollment is skipped. */
  lemma {:induction false} NoPositiveIdNoInserts(es: seq<Enrollment>, slug: Option<string>)
    requires forall k :: 0 <= k < |es| ==> es[k].orgId <= 0
    ensures Inserts(es, slug) == [] && Skipped(es) == |es|
  {
    if es != [] {
      var n := |es| - 1;
      assert forall k :: 0 <= k < n ==> es[..n][k] == es[k];
      NoPositiveIdNoInserts(es[..n], slug);
    }
  }

  /** Enrollments whose organizations processOrg cached with id 0 (the lower-case tier
      does this) get org id 0 from getCompIds, so the insert loop skips every one. */
  lemma ZeroIdEnrollmentsSkipped(comp2id: map<string, int>, id2comp: map<int, string>,
                                 es: seq<Enrollment>, slug: Option<string>)
    requires forall k :: 0 <= k < |es| ==> es[k].organization in comp2id && comp2id[es[k].organization] == 0
    ensures var r := CompIds(comp2id, id2comp, es);
      Inserts(r, slug) == [] && Skipped(r) == |es|
  {
    NoPositiveIdNoInserts(CompIds(comp2id, id2comp, es), slug);
  }

  /** The insert loop of processUIdentity. */
  method InsertEnrollments(es: seq<Enrollment>, slug: Option<string>) returns (acts: seq<Action>, added: nat, skipped: nat)
    ensures acts == Inserts(es, slug) && added == |acts| && skipped == Skipped(es)
  {
    acts, added, skipped := [], 0, 0;
    var i := 0;
    while i < |es|
      invariant 0 <= i <= |es|
      invariant acts == Inserts(es[..i], slug) && added == |acts| && skipped == Skipped(es[..i])
    {
      assert es[..i + 1][..i] == es[..i];
      if es[i].orgId <= 0 {
        skipped := skipped + 1;
      } else {
        acts := acts + [InsertEnrollment(InsertRow(es[i], slug))];
        added := added + 1;
      }
      i := i + 1;
    }
    assert es[..i] == es;
  }

  // ---- processUIdentity ----

  /** The delete/insert decision: delete when stored enrollments were found, differ
      (or were not compared) and replace mode is on; insert when they differ and either
      none were found or replace mode is on. */
  datatype Decision = Decision(delete: bool, insert: bool)

  function Decide(fetched: bool, same: bool, replace: bool): (d: Decision)
    ensures same ==> !d.delete && !d.insert
    ensures !fetched ==> !d.delete && d.insert == !same
    ensures fetched && !same ==> d.delete == replace && d.insert == replace
  {
    Decision(fetched && !same && replace, !same && (!fetched || replace))
  }

  function Count(b: bool): nat
  {
    if b then 1 else 0
  }

  /** profilesFound and profilesSame. */
  function ProfileCounts(db: Db, nfkd: Normalizer, u: UIdentity, compare: bool): (r: Tally)
    ensures r.same <= r.found <= 1
    ensures r.found == 1 <==> db.profiles(u.uuid) != []
    ensures r.same == 1 ==> compare
  {
    var profiles := db.profiles(u.uuid);
    if profiles == [] then Tally(0, 0)
    else Tally(1, if compare && !ProfilesDiffer(nfkd, u.profile, profiles[0]) then 1 else 0)
  }

  /** The enrollment phase: whether stored rows were found and found equal, whether
      they were deleted, how many inserts and skips, and the writes. */
  datatype Writes = Writes(found: bool, same: bool, deleted: bool, added: nat, skipped: nat, actions: seq<Action>)

  function EnrollmentWrites(rows: seq<EnrollmentRow>, existing: seq<Enrollment>, es: seq<Enrollment>, uuid: string,
                            replace: bool, compare: bool, slug: Option<string>): Writes
  {
    var fetched := rows != [];
    var same := fetched && compare && !EnrollmentsDiffer(es, existing);
    var d := Decide(fetched, same, replace);
    var ins := if d.insert then Inserts(es, slug) else [];
    Writes(fetched, same, d.delete, |ins|, if d.insert then Skipped(es) else 0,
           (if d.delete then [DeleteEnrollments(uuid, slug)] else []) + ins)
  }

  /** What processUIdentity does for one record: its counter delta and its writes. */
  datatype Outcome = Outcome(stats: Stats, actions: seq<Action>)

  function NotFoundOutcome(): Outcome
  {
    Outcome(NoStats.(uidentitiesNotFound := 1), [])
  }

  function Reconcile(db: Db, nfkd: Normalizer, u: UIdentity, comp2id: map<string, int>, id2comp: map<int, string>,
                     replace: bool, compare: bool, slug: Option<string>): Result<Outcome>
  {
    if db.uidentities(u.uuid) == [] then Ok(NotFoundOutcome())
    else
      var rows := db.enrollments((u.uuid, slug));
      var existing := if compare then ExistingEnrollments(rows, id2comp) else Ok([]);
      if existing.Fatal? then Fatal(existing.reason)
      else Ok(FoundOutcome(db, nfkd, u, existing.value, comp2id, id2comp, replace, compare, slug))
  }

  /** The outcome for a record the store has, once the stored enrollments are read. */
  function FoundOutcome(db: Db, nfkd: Normalizer, u: UIdentity, existing: seq<Enrollment>, comp2id: map<string, int>,
                        id2comp: map<int, string>, replace: bool, compare: bool, slug: Option<string>): Outcome
  {
    var p := ProfileCounts(db, nfkd, u, compare);
    var ids := IdentityCounts(db, nfkd, u, compare);
    var w := EnrollmentWrites(db.enrollments((u.uuid, slug)), existing, CompIds(comp2id, id2comp, u.enrollments),
                              u.uuid, replace, compare, slug);
    Outcome(Stats(1, 0, p.found, p.same, ids.found, ids.same, Count(w.found), w.added, Count(w.same), w.skipped, Count(w.deleted)),
            w.actions)
  }

  /** The comparison step of the enrollment phase: with stored rows and compare mode,
      the org ids are resolved first and the lists compared; the resolved list is
      kept for the inserts. */
  method CompareStored(fetched: bool, existing: seq<Enrollment>, enrollments: seq<Enrollment>,
                       comp2id: map<string, int>, id2comp: map<int, string>, compare: bool)
    returns (es: seq<Enrollment>, compIdCalculated: bool, same: bool)
    ensures compIdCalculated == (fetched && compare)
    ensures es == if compIdCalculated then CompIds(comp2id, id2comp, enrollments) else enrollments
    ensures same == (fetched && compare && !EnrollmentsDiffer(CompIds(comp2id, id2comp, enrollments), existing))
  {
    es, compIdCalculated, same := enrollments, false, false;
    if fetched && compare {
      es := GetCompIds(comp2id, id2comp, es);
      compIdCalculated := true;
      var differ := CompareEnrollments(es, existing);
      same := !differ;
    }
  }

  /** The enrollment phase of processUIdentity: getCompIds runs once, before the
      comparison when there is one, else before the inserts. */
  method WriteEnrollments(rows: seq<EnrollmentRow>, existing: seq<Enrollment>, enrollments: seq<Enrollment>,
                          comp2id: map<string, int>, id2comp: map<int, string>, uuid: string,
                          replace: bool, compare: bool, slug: Option<string>)
    returns (w: Writes)
    ensures w == EnrollmentWrites(rows, existing, CompIds(comp2id, id2comp, enrollments), uuid, replace, compare, slug)
  {
    ghost var resolved := CompIds(comp2id, id2comp, enrollments);
    ghost var spec := EnrollmentWrites(rows, existing, resolved, uuid, replace, compare, slug);
    var fetched := rows != [];
    var es, compIdCalculated, same := CompareStored(fetched, existing, enrollments, comp2id, id2comp, compare);
    assert same == spec.same;
    var acts: seq<Action> := [];
    var deleted := false;
    if fetched && !same && replace {
      acts := acts + [DeleteEnrollments(uuid, slug)];
      deleted := true;
    }
    assert deleted == spec.deleted;
    var added, skipped := 0, 0;
    if !same && (!fetched || (fetched && replace)) {
      if !compIdCalculated {
        es := GetCompIds(comp2id, id2comp, es);
      }
      assert es == resolved;
      var inserts;
      inserts, added, skipped := InsertEnrollments(es, slug);
      acts := acts + inserts;
    }
    assert acts == spec.actions && added == spec.added && skipped == spec.skipped;
    w := Writes(fetched, same, deleted, added, skipped, acts);
  }

  /** processUIdentity (sequential mode): the writes it issues, with the batch total
      updated by the deferred merge. */
  method ProcessUIdentity(db: Db, nfkd: Normalizer, u: UIdentity, comp2id: map<string, int>, id2comp: map<int, string>,
                          replace: bool, compare: bool, slug: Option<string>, stats: BatchStats)
    returns (r: Result<seq<Action>>)
    modifies stats
    ensures var spec := Reconcile(db, nfkd, u, comp2id, id2comp, replace, compare, slug);
      (r.Fatal? <==> spec.Fatal?)
      && (r.Ok? ==> r.value == spec.value.actions && stats.Value() == Add(old(stats.Value()), spec.value.stats))
  {
    if db.uidentities(u.uuid) == [] {
      stats.Merge(NoStats.(uidentitiesNotFound := 1));
      return Ok([]);
    }
    var rows := db.enrollments((u.uuid, slug));
    var existing: seq<Enrollment> := [];
    if compare {
      var read := ReadExisting(rows, id2comp);
      if read.Fatal? {
        return Fatal(read.reason);
      }
      existing := read.value;
    }
    var acts := ProcessFound(db, nfkd, u, existing, comp2id, id2comp, replace, compare, slug, stats);
    r := Ok(acts);
  }

  /** The rest of processUIdentity for a record the store has: the profile and alias
      counts, the enrollment phase and the deferred merge. */
  method ProcessFound(db: Db, nfkd: Normalizer, u: UIdentity, existing: seq<Enrollment>, comp2id: map<string, int>,
                      id2comp: map<int, string>, replace: bool, compare: bool, slug: Option<string>, stats: BatchStats)
    returns (acts: seq<Action>)
    modifies stats
    ensures var o := FoundOutcome(db, nfkd, u, existing, comp2id, id2comp, replace, compare, slug);
      acts == o.actions && stats.Value() == Add(old(stats.Value()), o.stats)
  {
    var profilesFound, profilesSame := 0, 0;
    var profiles := db.profiles(u.uuid);
    var fetched := profiles != [];
    if fetched {
      profilesFound := 1;
    }
    if fetched && compare {
      var same := !ProfilesDiffer(nfkd, u.profile, profiles[0]);
      if same {
        profilesSame := 1;
      }
    }
    var ids := CountIdentities(db, nfkd, u, compare);
    var rows := db.enrollments((u.uuid, slug));
    var w := WriteEnrollments(rows, existing, u.enrollments, comp2id, id2comp, u.uuid, replace, compare, slug);
    stats.Merge(Stats(1, 0, profilesFound, profilesSame, ids.found, ids.same, Count(w.found), w.added,
                      Count(w.same), w.skipped, Count(w.deleted)));
    acts := w.actions;
  }

  // ---- what processUIdentity promises ----

  /** The counters of one call: exactly one of found / not found; a record that is not
      found is left alone; same never exceeds found; at most one delete; one insert
      per added enrollment; and when the record's enrollments are written, each is
      either added or skipped. */
  lemma ReconcileCounters(db: Db, nfkd: Normalizer, u: UIdentity, comp2id: map<string, int>, id2comp: map<int, string>,
                          replace: bool, compare: bool, slug: Option<string>)
    requires Reconcile(db, nfkd, u, comp2id, id2comp, replace, compare, slug).Ok?
    ensures var o := Reconcile(db, nfkd, u, comp2id, id2comp, replace, compare, slug).value;
      var st := o.stats;
      st.uidentitiesFound + st.uidentitiesNotFound == 1
      && (st.uidentitiesNotFound == 1 ==> o == NotFoundOutcome())
      && st.profilesSame <= st.profilesFound <= 1
      && st.identitiesSame <= st.identitiesFound <= Usernames(u.idents)
      && st.enrollmentsSame <= st.enrollmentsFound <= 1
      && st.enrollmentsDeleted <= 1
      && |o.actions| == st.enrollmentsDeleted + st.enrollmentsAdded
      && (st.enrollmentsAdded + st.enrollmentsSkipped == 0 || st.enrollmentsAdded + st.enrollmentsSkipped == |u.enrollments|)
  {
    if db.uidentities(u.uuid) != [] {
      InsertsAccount(CompIds(comp2id, id2comp, u.enrollments), slug);
    }
  }

  /** The writes of one call: an optional delete of the record's (uuid, slug) rows
      first, then only inserts, each for the run's slug and a positive org id; stored
      enrollments are never touched without replace mode. */
  lemma ReconcileActions(db: Db, nfkd: Normalizer, u: UIdentity, comp2id: map<string, int>, id2comp: map<int, string>,
                         replace: bool, compare: bool, slug: Option<string>)
    requires Reconcile(db, nfkd, u, comp2id, id2comp, replace, compare, slug).Ok?
    ensures var o := Reconcile(db, nfkd, u, comp2id, id2comp, replace, compare, slug).value;
      (forall k :: 0 < k < |o.actions| ==> o.actions[k].InsertEnrollment?)
      && (forall k :: 0 <= k < |o.actions| && o.actions[k].InsertEnrollment? ==>
            o.actions[k].row.orgId > 0 && o.actions[k].row.projectSlug == slug)
      && (forall k :: 0 <= k < |o.actions| && o.actions[k].DeleteEnrollments? ==>
            k == 0 && o.actions[k] == DeleteEnrollments(u.uuid, slug) && replace)
      && (!replace && db.enrollments((u.uuid, slug)) != [] ==> o.actions == [])
  {
    if db.uidentities(u.uuid) != [] {
      var rows := db.enrollments((u.uuid, slug));
      var existing := if compare then ExistingEnrollments(rows, id2comp) else Ok([]);
      WritesActions(rows, existing.value, CompIds(comp2id, id2comp, u.enrollments), u.uuid, replace, compare, slug);
    }
  }

  /** The enrollment phase writes an optional delete of (uuid, slug) first, then only
      inserts for the slug with positive org ids, and nothing when stored rows exist
      outside replace mode. */
  lemma WritesActions(rows: seq<EnrollmentRow>, existing: seq<Enrollment>, es: seq<Enrollment>, uuid: string,
                      replace: bool, compare: bool, slug: Option<string>)
    ensures var acts := EnrollmentWrites(rows, existing, es, uuid, replace, compare, slug).actions;
      (forall k :: 0 < k < |acts| ==> acts[k].InsertEnrollment?)
      && (forall k :: 0 <= k < |acts| && acts[k].InsertEnrollment? ==>
            acts[k].row.orgId > 0 && acts[k].row.projectSlug == slug)
      && (forall k :: 0 <= k < |acts| && acts[k].DeleteEnrollments? ==>
            k == 0 && acts[k] == DeleteEnrollments(uuid, slug) && replace)
      && (!replace && rows != [] ==> acts == [])
  {
    var w := EnrollmentWrites(rows, existing, es, uuid, replace, compare, slug);
    var d := Decide(rows != [], w.same, replace);
    var ins := if d.insert then Inserts(es, slug) else [];
    if d.delete {
      assert forall k :: 0 < k < |w.actions| ==> w.actions[k] == ins[k - 1];
    }
  }

  /** The decision table of the enrollment phase, for a record that exists. */
  lemma ReconcileDecisionTable(db: Db, nfkd: Normalizer, u: UIdentity, comp2id: map<string, int>, id2comp: map<int, string>,
                               replace: bool, compare: bool, slug: Option<string>)
    requires db.uidentities(u.uuid) != []
    requires Reconcile(db, nfkd, u, comp2id, id2comp, replace, compare, slug).Ok?
    ensures var o := Reconcile(db, nfkd, u, comp2id, id2comp, replace, compare, slug).value;
      var rows := db.enrollments((u.uuid, slug));
      var es := CompIds(comp2id, id2comp, u.enrollments);
      var ins := Inserts(es, slug);
      var del := [DeleteEnrollments(u.uuid, slug)];
      (rows == [] ==> o.actions == ins)
      && (rows != [] && !replace ==> o.actions == [])
      && (rows != [] && replace && !compare ==> o.actions == del + ins)
      && (rows != [] && replace && compare ==>
            o.actions == (if EnrollmentsDiffer(es, ExistingEnrollments(rows, id2comp).value) then del + ins else []))
  {
  }

  // ---- running twice ----

  /** The rows an enrollment list is inserted as. */
  function RowsFor(es: seq<Enrollment>, slug: Option<string>): seq<EnrollmentRow>
  {
    seq(|es|, k requires 0 <= k < |es| => InsertRow(es[k], slug))
  }

  lemma {:induction false} ApplyAllAppend(f: ((string, Option<string>)) -> seq<EnrollmentRow>, a: seq<Action>, b: seq<Action>)
    ensures ApplyAll(f, a + b) == ApplyAll(ApplyAll(f, a), b)
    decreases |a|
  {
    if a == [] {
      assert a + b == b;
    } else {
      assert (a + b)[0] == a[0] && (a + b)[1..] == a[1..] + b;
      ApplyAllAppend(ApplyOne(f, a[0]), a[1..], b);
    }
  }

  /** With every org id positive, the inserts of a list all of one uuid append its rows
      at (uuid, slug). */
  lemma {:induction false} InsertsAppendRows(f: ((string, Option<string>)) -> seq<EnrollmentRow>, es: seq<Enrollment>,
                                             uuid: string, slug: Option<string>)
    requires forall k :: 0 <= k < |es| ==> es[k].uuid == uuid && es[k].orgId > 0
    ensures ApplyAll(f, Inserts(es, slug))((uuid, slug)) == f((uuid, slug)) + RowsFor(es, slug)
  {
    if es != [] {
      var n := |es| - 1;
      InsertsAppendRows(f, es[..n], uuid, slug);
      ApplyAllAppend(f, Inserts(es[..n], slug), [InsertEnrollment(InsertRow(es[n], slug))]);
      assert RowsFor(es, slug) == RowsFor(es[..n], slug) + [InsertRow(es[n], slug)];
    }
  }

  /** Every enrollment of the record carries the record's uuid and the run's slug, as
      postprocessIdentities leaves them. */
  predicate StampedFor(u: UIdentity, slug: Option<string>)
  {
    forall k :: 0 <= k < |u.enrollments| ==> u.enrollments[k].uuid == u.uuid && u.enrollments[k].projectSlug == slug
  }

  /** Every organization of the record resolves to a positive id. */
  predicate Resolvable(comp2id: map<string, int>, u: UIdentity)
  {
    forall k :: 0 <= k < |u.enrollments| ==>
      u.enrollments[k].organization in comp2id && comp2id[u.enrollments[k].organization] > 0
  }

  /** Reading back the rows a resolved, stamped record was inserted as gives the record's
      own enrollments after getCompIds. */
  lemma ReadBackInserted(comp2id: map<string, int>, id2comp: map<int, string>, u: UIdentity, slug: Option<string>)
    requires Coherent(comp2id, id2comp) && StampedFor(u, slug) && Resolvable(comp2id, u)
    ensures var es := CompIds(comp2id, id2comp, u.enrollments);
      ExistingEnrollments(RowsFor(es, slug), id2comp) == Ok(es)
  {
    var es := CompIds(comp2id, id2comp, u.enrollments);
    var rows := RowsFor(es, slug);
    forall k | 0 <= k < |rows|
      ensures rows[k].orgId in id2comp && AsEnrollment(rows[k], id2comp[rows[k].orgId]) == es[k]
    {
      var cid := comp2id[u.enrollments[k].organization];
      assert es[k] == u.enrollments[k].(orgId := cid, organization := id2comp[cid]);
    }
    var r := ExistingEnrollments(rows, id2comp);
    assert r.Ok?;
    assert r.value == es;
  }

  /** A store that already holds exactly the rows a resolved, stamped record is
      inserted as gets no writes for that record in compare mode. */
  lemma StoredRowsNoWrites(db: Db, nfkd: Normalizer, u: UIdentity, comp2id: map<string, int>, id2comp: map<int, string>,
                           replace: bool, slug: Option<string>)
    requires Coherent(comp2id, id2comp) && StampedFor(u, slug) && Resolvable(comp2id, u)
    requires db.enrollments((u.uuid, slug)) == RowsFor(CompIds(comp2id, id2comp, u.enrollments), slug)
    ensures var again := Reconcile(db, nfkd, u, comp2id, id2comp, replace, true, slug);
      again.Ok? && again.value.actions == []
  {
    var es := CompIds(comp2id, id2comp, u.enrollments);
    ReadBackInserted(comp2id, id2comp, u, slug);
    if es == [] {
      assert Inserts(es, slug) == [];
    }
  }

  /** The writes of one compare-mode call leave at (uuid, slug) exactly the rows the
      record is inserted as, unless they are empty. */
  lemma WritesStoreRecord(db: Db, nfkd: Normalizer, u: UIdentity, comp2id: map<string, int>, id2comp: map<int, string>,
                          replace: bool, slug: Option<string>)
    requires Coherent(comp2id, id2comp) && StampedFor(u, slug) && Resolvable(comp2id, u)
    requires db.uidentities(u.uuid) != []
    requires Reconcile(db, nfkd, u, comp2id, id2comp, replace, true, slug).Ok?
    ensures var o := Reconcile(db, nfkd, u, comp2id, id2comp, replace, true, slug).value;
      o.actions != [] ==>
        Apply(db, o.actions).enrollments((u.uuid, slug)) == RowsFor(CompIds(comp2id, id2comp, u.enrollments), slug)
  {
    var es := CompIds(comp2id, id2comp, u.enrollments);
    forall k | 0 <= k < |es|
      ensures es[k].uuid == u.uuid && es[k].orgId > 0
    {
    }
    var existing := ExistingEnrollments(db.enrollments((u.uuid, slug)), id2comp).value;
    WritesLeaveRows(db.enrollments, existing, es, u.uuid, replace, slug);
  }

  /** The compare-mode writes for a list whose enrollments all carry the uuid and a
      positive org id leave at (uuid, slug) exactly the list's rows, unless they are empty. */
  lemma WritesLeaveRows(f: ((string, Option<string>)) -> seq<EnrollmentRow>, existing: seq<Enrollment>,
                        es: seq<Enrollment>, uuid: string, replace: bool, slug: Option<string>)
    requires forall k :: 0 <= k < |es| ==> es[k].uuid == uuid && es[k].orgId > 0
    ensures var acts := EnrollmentWrites(f((uuid, slug)), existing, es, uuid, replace, true, slug).actions;
      acts != [] ==> ApplyAll(f, acts)((uuid, slug)) == RowsFor(es, slug)
  {
    var key := (uuid, slug);
    var acts := EnrollmentWrites(f(key), existing, es, uuid, replace, true, slug).actions;
    if acts != [] {
      var ins := Inserts(es, slug);
      if f(key) == [] {
        assert acts == ins;
        InsertsAppendRows(f, es, uuid, slug);
        assert f(key) + RowsFor(es, slug) == RowsFor(es, slug);
      } else {
        var del := DeleteEnrollments(uuid, slug);
        assert acts == [del] + ins;
        ApplyAllAppend(f, [del], ins);
        var cleared := ApplyOne(f, del);
        assert ApplyAll(f, [del]) == cleared;
        InsertsAppendRows(cleared, es, uuid, slug);
        assert cleared(key) + RowsFor(es, slug) == RowsFor(es, slug);
      }
    }
  }

  /** Importing the same resolved record twice in compare mode writes nothing the
      second time: the first call leaves the stored enrollments equal to the record's
      (or leaves them alone without replace mode), so the second finds them the same. */
  lemma ReconcileIdempotent(db: Db, nfkd: Normalizer, u: UIdentity, comp2id: map<string, int>, id2comp: map<int, string>,
                            replace: bool, slug: Option<string>)
    requires Coherent(comp2id, id2comp) && StampedFor(u, slug) && Resolvable(comp2id, u)
    requires Reconcile(db, nfkd, u, comp2id, id2comp, replace, true, slug).Ok?
    ensures var o := Reconcile(db, nfkd, u, comp2id, id2comp, replace, true, slug).value;
      var again := Reconcile(Apply(db, o.actions), nfkd, u, comp2id, id2comp, replace, true, slug);
      again.Ok? && again.value.actions == []
  {
    var o := Reconcile(db, nfkd, u, comp2id, id2comp, replace, true, slug).value;
    if o.actions == [] {
      assert Apply(db, o.actions) == db;
    } else {
      assert db.uidentities(u.uuid) != [];
      WritesStoreRecord(db, nfkd, u, comp2id, id2comp, replace, slug);
      StoredRowsNoWrites(Apply(db, o.actions), nfkd, u, comp2id, id2comp, replace, slug);
    }
  }

  // ---- the reconciliation loop ----

  /** The loop over every resolved record: each call sees the store as the calls
      before it left it. */
  function ReconcileAll(db: Db, nfkd: Normalizer, recs: seq<UIdentity>, comp2id: map<string, int>, id2comp: map<int, string>,
                        replace: bool, compare: bool, slug: Option<string>): Result<(Db, Stats)>
    decreases |recs|
  {
    if recs == [] then Ok((db, NoStats))
    else match Reconcile(db, nfkd, recs[0], comp2id, id2comp, replace, compare, slug)
      case Fatal(m) => Fatal(m)
      case Ok(o) => Prefixed(o.stats, ReconcileAll(Apply(db, o.actions), nfkd, recs[1..], comp2id, id2comp, replace, compare, slug))
  }

  /** A result whose counters still get the delta `before` in front. */
  function Prefixed(before: Stats, r: Result<(Db, Stats)>): Result<(Db, Stats)>
  {
    match r
    case Fatal(m) => Fatal(m)
    case Ok((db, total)) => Ok((db, Add(before, total)))
  }

  /** The sequential loop of the run over the resolved records; the store's state is
      threaded through the writes. */
  method ReconcileRecords(db: Db, nfkd: Normalizer, recs: seq<UIdentity>, comp2id: map<string, int>,
                          id2comp: map<int, string>, replace: bool, compare: bool, slug: Option<string>,
                          stats: BatchStats)
    returns (r: Result<Db>)
    modifies stats
    ensures var spec := ReconcileAll(db, nfkd, recs, comp2id, id2comp, replace, compare, slug);
      (r.Fatal? <==> spec.Fatal?)
      && (r.Ok? ==> r.value == spec.value.0 && stats.Value() == Add(old(stats.Value()), spec.value.1))
  {
    var store := db;
    var i := 0;
    ghost var done := NoStats;
    AddNoStats(old(stats.Value()));
    PrefixedNoStats(ReconcileAll(db, nfkd, recs, comp2id, id2comp, replace, compare, slug));
    while i < |recs|
      invariant 0 <= i <= |recs|
      invariant stats.Value() == Add(old(stats.Value()), done)
      invariant ReconcileAll(db, nfkd, recs, comp2id, id2comp, replace, compare, slug)
        == Prefixed(done, ReconcileAll(store, nfkd, recs[i..], comp2id, id2comp, replace, compare, slug))
    {
      var res;
      ghost var delta;
      res, delta := ReconcileNext(store, nfkd, recs, i, comp2id, id2comp, replace, compare, slug, stats);
      if res.Fatal? {
        return Fatal(res.reason);
      }
      ghost var rest := ReconcileAll(res.value, nfkd, recs[i + 1..], comp2id, id2comp, replace, compare, slug);
      PrefixedAdd(done, delta, rest);
      AddAssociative(old(stats.Value()), done, delta);
      done := Add(done, delta);
      store := res.value;
      i := i + 1;
    }
    assert recs[i..] == [];
    AddNoStats(done);
    assert ReconcileAll(db, nfkd, recs, comp2id, id2comp, replace, compare, slug) == Ok((store, done));
    r := Ok(store);
  }

  /** One turn of the record loop: processUIdentity on record i, its writes applied. */
  method ReconcileNext(store: Db, nfkd: Normalizer, recs: seq<UIdentity>, i: nat, comp2id: map<string, int>,
                       id2comp: map<int, string>, replace: bool, compare: bool, slug: Option<string>,
                       stats: BatchStats)
    returns (r: Result<Db>, ghost delta: Stats)
    requires i < |recs|
    modifies stats
    ensures r.Fatal? ==> ReconcileAll(store, nfkd, recs[i..], comp2id, id2comp, replace, compare, slug).Fatal?
    ensures r.Ok? ==>
      ReconcileAll(store, nfkd, recs[i..], comp2id, id2comp, replace, compare, slug)
        == Prefixed(delta, ReconcileAll(r.value, nfkd, recs[i + 1..], comp2id, id2comp, replace, compare, slug))
      && stats.Value() == Add(old(stats.Value()), delta)
  {
    ghost var o := Reconcile(store, nfkd, recs[i], comp2id, id2comp, replace, compare, slug);
    ReconcileAllStep(store, nfkd, recs, i, comp2id, id2comp, replace, compare, slug);
    var res := ProcessUIdentity(store, nfkd, recs[i], comp2id, id2comp, replace, compare, slug, stats);
    if res.Fatal? {
      return Fatal(res.reason), NoStats;
    }
    r, delta := Ok(Apply(store, res.value)), o.value.stats;
  }

  lemma ReconcileAllStep(store: Db, nfkd: Normalizer, recs: seq<UIdentity>, i: nat, comp2id: map<string, int>,
                         id2comp: map<int, string>, replace: bool, compare: bool, slug: Option<string>)
    requires i < |recs|
    ensures var o := Reconcile(store, nfkd, recs[i], comp2id, id2comp, replace, compare, slug);
      var all := ReconcileAll(store, nfkd, recs[i..], comp2id, id2comp, replace, compare, slug);
      (o.Fatal? ==> all.Fatal?)
      && (o.Ok? ==> all == Prefixed(o.value.stats, ReconcileAll(Apply(store, o.value.actions), nfkd, recs[i + 1..], comp2id, id2comp, replace, compare, slug)))
  {
    assert recs[i..][0] == recs[i] && recs[i..][1..] == recs[i + 1..];
  }

  lemma PrefixedAdd(a: Stats, b: Stats, r: Result<(Db, Stats)>)
    ensures Prefixed(a, Prefixed(b, r)) == Prefixed(Add(a, b), r)
  {
    if r.Ok? {
      AddAssociative(a, b, r.value.1);
    }
  }

  lemma PrefixedNoStats(r: Result<(Db, Stats)>)
    ensures Prefixed(NoStats, r) == r
  {
    if r.Ok? {
      AddNoStats(r.value.1);
    }
  }
}
