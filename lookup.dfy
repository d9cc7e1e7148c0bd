/** lookupUIdentity: the cascade of point queries that binds an incoming record to at
    most one identity (uuid) of the store. The store is an oracle from a query to the
    rows of `select distinct uuid ...` it returns. */
module Lookup {
  import opened Records

  /** The seven kinds of `select distinct uuid` queries, in the order they are tried. */
  datatype Query =
    | ByName(name: string)
    | BySourceUsername(source: string, username: string)
    | ByEmail(email: string)
    | ByNameSourceUsername(name: string, source: string, username: string)
    | ByNameEmail(name: string, email: string)
    | BySourceUsernameEmail(source: string, username: string, email: string)
    | ByAll(name: string, source: string, username: string, email: string)

  /** The identity store as seen by the cascade: the uuid rows each query returns. */
  type Rows = Query -> seq<string>

  /** The position of a query's strategy in the cascade (1 = by name, 7 = by everything). */
  function Strategy(q: Query): nat
  {
    match q
    case ByName(_) => 1
    case BySourceUsername(_, _) => 2
    case ByEmail(_) => 3
    case ByNameSourceUsername(_, _, _) => 4
    case ByNameEmail(_, _) => 5
    case BySourceUsernameEmail(_, _, _) => 6
    case ByAll(_, _, _, _) => 7
  }

  /** A query settles the lookup only when it returns exactly one, non-empty uuid. */
  predicate Conclusive(rows: seq<string>)
  {
    |rows| == 1 && rows[0] != ""
  }

  /** The uuid of the first conclusive query of qs, or "" when none is conclusive. */
  function FirstHit(rows: Rows, qs: seq<Query>): (r: string)
    ensures r == "" <==> forall k :: 0 <= k < |qs| ==> !Conclusive(rows(qs[k]))
    ensures r != "" ==>
      exists k :: 0 <= k < |qs| && rows(qs[k]) == [r] && forall j :: 0 <= j < k ==> !Conclusive(rows(qs[j]))
  {
    if qs == [] then ""
    else if Conclusive(rows(qs[0])) then
      assert rows(qs[0]) == [rows(qs[0])[0]];
      rows(qs[0])[0]
    else
      var r := FirstHit(rows, qs[1..]);
      assert forall k :: 1 <= k < |qs| ==> qs[k] == qs[1..][k - 1];
      r
  }

  /** A hit in the first part of a query list hides the rest; a miss passes on to it. */
  lemma {:induction false} FirstHitAppend(rows: Rows, a: seq<Query>, b: seq<Query>)
    ensures FirstHit(rows, a + b) == if FirstHit(rows, a) != "" then FirstHit(rows, a) else FirstHit(rows, b)
  {
    if a != [] {
      assert (a + b)[0] == a[0];
      assert (a + b)[1..] == a[1..] + b;
      FirstHitAppend(rows, a[1..], b);
    } else {
      assert a + b == b;
    }
  }

  // ---- the query lists of the seven strategies, in the source's loop order ----

  function UsernameQueries(source: string, usernames: seq<string>): (r: seq<Query>)
    ensures |r| == |usernames|
    ensures forall k :: 0 <= k < |r| ==> r[k] == BySourceUsername(source, usernames[k])
  {
    seq(|usernames|, k requires 0 <= k < |usernames| => BySourceUsername(source, usernames[k]))
  }

  /** Strategy 2: every (source, username) pair. */
  function SourceUsernameQueries(idents: seq<Ident>): (r: seq<Query>)
    ensures forall k :: 0 <= k < |r| ==> Strategy(r[k]) == 2
  {
    if idents == [] then []
    else UsernameQueries(idents[0].source, idents[0].usernames) + SourceUsernameQueries(idents[1..])
  }

  /** Strategy 3: every email. */
  function EmailQueries(emails: seq<string>): (r: seq<Query>)
    ensures |r| == |emails|
    ensures forall k :: 0 <= k < |r| ==> r[k] == ByEmail(emails[k])
  {
    seq(|emails|, k requires 0 <= k < |emails| => ByEmail(emails[k]))
  }

  function NameUsernameQueries(name: string, source: string, usernames: seq<string>): (r: seq<Query>)
    ensures |r| == |usernames|
    ensures forall k :: 0 <= k < |r| ==> r[k] == ByNameSourceUsername(name, source, usernames[k])
  {
    seq(|usernames|, k requires 0 <= k < |usernames| => ByNameSourceUsername(name, source, usernames[k]))
  }

  /** Strategy 4: the name with every (source, username) pair. */
  function NameSourceUsernameQueries(name: string, idents: seq<Ident>): (r: seq<Query>)
    ensures forall k :: 0 <= k < |r| ==> Strategy(r[k]) == 4
  {
    if idents == [] then [] else
    NameUsernameQueries(name, idents[0].source, idents[0].usernames) + NameSourceUsernameQueries(name, idents[1..])
  }

  /** Strategy 5: the name with every email. */
  function NameEmailQueries(name: string, emails: seq<string>): (r: seq<Query>)
    ensures |r| == |emails|
    ensures forall k :: 0 <= k < |r| ==> r[k] == ByNameEmail(name, emails[k])
  {
    seq(|emails|, k requires 0 <= k < |emails| => ByNameEmail(name, emails[k]))
  }

  function UsernameEmailQueries(source: string, usernames: seq<string>, email: string): (r: seq<Query>)
    ensures |r| == |usernames|
    ensures forall k :: 0 <= k < |r| ==> r[k] == BySourceUsernameEmail(source, usernames[k], email)
  {
    seq(|usernames|, k requires 0 <= k < |usernames| => BySourceUsernameEmail(source, usernames[k], email))
  }

  /** For one source: for every email, every username (the inner two loops of strategy 6). */
  function SourceEmailsQueries(source: string, usernames: seq<string>, emails: seq<string>): (r: seq<Query>)
    ensures forall k :: 0 <= k < |r| ==> Strategy(r[k]) == 6
  {
    if emails == [] then []
    else UsernameEmailQueries(source, usernames, emails[0]) + SourceEmailsQueries(source, usernames, emails[1..])
  }

  /** Strategy 6: for every source, every email, every username. */
  function SourceUsernameEmailQueries(idents: seq<Ident>, emails: seq<string>): (r: seq<Query>)
    ensures forall k :: 0 <= k < |r| ==> Strategy(r[k]) == 6
  {
    if idents == [] then [] else
    SourceEmailsQueries(idents[0].source, idents[0].usernames, emails) + SourceUsernameEmailQueries(idents[1..], emails)
  }

  function AllUsernamesQueries(name: string, source: string, usernames: seq<string>, email: string): (r: seq<Query>)
    ensures |r| == |usernames|
    ensures forall k :: 0 <= k < |r| ==> r[k] == ByAll(name, source, usernames[k], email)
  {
    seq(|usernames|, k requires 0 <= k < |usernames| => ByAll(name, source, usernames[k], email))
  }

  function AllEmailsQueries(name: string, source: string, usernames: seq<string>, emails: seq<string>): (r: seq<Query>)
    ensures forall k :: 0 <= k < |r| ==> Strategy(r[k]) == 7
  {
    if emails == [] then []
    else AllUsernamesQueries(name, source, usernames, emails[0]) + AllEmailsQueries(name, source, usernames, emails[1..])
  }

  /** Strategy 7: the name with every source, email and username. */
  function AllFieldsQueries(name: string, idents: seq<Ident>, emails: seq<string>): (r: seq<Query>)
    ensures forall k :: 0 <= k < |r| ==> Strategy(r[k]) == 7
  {
    if idents == [] then [] else
    AllEmailsQueries(name, idents[0].source, idents[0].usernames, emails) + AllFieldsQueries(name, idents[1..], emails)
  }

  /** Every query lookupUIdentity may issue for a record, in the order it issues them. */
  function Cascade(name: string, idents: seq<Ident>, emails: seq<string>): seq<Query>
  {
    [ByName(name)]
      + (SourceUsernameQueries(idents)
      + (EmailQueries(emails)
      + (NameSourceUsernameQueries(name, idents)
      + (NameEmailQueries(name, emails)
      + (SourceUsernameEmailQueries(idents, emails)
      + AllFieldsQueries(name, idents, emails))))))
  }

  /** Queries sorted by strategy, all of strategy k or later. */
  ghost predicate OrderedFrom(qs: seq<Query>, k: nat)
  {
    (forall i :: 0 <= i < |qs| ==> k <= Strategy(qs[i]))
    && forall i, j :: 0 <= i <= j < |qs| ==> Strategy(qs[i]) <= Strategy(qs[j])
  }

  lemma PrependBlock(a: seq<Query>, b: seq<Query>, k: nat, k': nat)
    requires forall i :: 0 <= i < |a| ==> Strategy(a[i]) == k
    requires OrderedFrom(b, k') && k <= k'
    ensures OrderedFrom(a + b, k)
  {
    forall i, j | 0 <= i <= j < |a + b|
      ensures Strategy((a + b)[i]) <= Strategy((a + b)[j])
    {
      if j < |a| {
      } else if i < |a| {
        assert Strategy((a + b)[j]) == Strategy(b[j - |a|]);
      } else {
        assert Strategy((a + b)[i]) == Strategy(b[i - |a|]);
        assert Strategy((a + b)[j]) == Strategy(b[j - |a|]);
      }
    }
  }

  /** The cascade starts with the name query and never returns to an earlier strategy. */
  lemma CascadeOrdered(name: string, idents: seq<Ident>, emails: seq<string>)
    ensures Cascade(name, idents, emails)[0] == ByName(name)
    ensures OrderedFrom(Cascade(name, idents, emails), 1)
  {
    var s7 := AllFieldsQueries(name, idents, emails);
    var s6 := SourceUsernameEmailQueries(idents, emails);
    var s5 := NameEmailQueries(name, emails);
    var s4 := NameSourceUsernameQueries(name, idents);
    var s3 := EmailQueries(emails);
    var s2 := SourceUsernameQueries(idents);
    PrependBlock(s6, s7, 6, 7);
    PrependBlock(s5, s6 + s7, 5, 6);
    PrependBlock(s4, s5 + (s6 + s7), 4, 5);
    PrependBlock(s3, s4 + (s5 + (s6 + s7)), 3, 4);
    PrependBlock(s2, s3 + (s4 + (s5 + (s6 + s7))), 2, 3);
    PrependBlock([ByName(name)], s2 + (s3 + (s4 + (s5 + (s6 + s7)))), 1, 2);
  }

  /** The `for rows.Next()` loop of one query: reads rows until a second one turns up. */
  method ScanRows(rows: seq<string>) returns (uuid: string, fetched: bool, multi: bool)
    ensures fetched <==> |rows| >= 1
    ensures multi <==> |rows| >= 2
    ensures (uuid != "" && fetched && !multi) <==> Conclusive(rows)
    ensures Conclusive(rows) ==> uuid == rows[0]
  {
    uuid, fetched, multi := "", false, false;
    var i := 0;
    while i < |rows|
      invariant 0 <= i <= 1 && i <= |rows|
      invariant !multi && (fetched <==> i == 1)
      invariant uuid == if i == 0 then "" else rows[0]
    {
      uuid := rows[i];
      if fetched {
        multi := true;
        break;
      }
      fetched := true;
      i := i + 1;
    }
  }

  /** One strategy: issue its queries in order and stop at the first conclusive one. */
  method TryQueries(rows: Rows, qs: seq<Query>) returns (uuid: string)
    ensures uuid == FirstHit(rows, qs)
  {
    var i := 0;
    while i < |qs|
      invariant 0 <= i <= |qs|
      invariant FirstHit(rows, qs) == FirstHit(rows, qs[i..])
    {
      var fetched, multi;
      uuid, fetched, multi := ScanRows(rows(qs[i]));
      assert qs[i..][0] == qs[i] && qs[i..][1..] == qs[i + 1..];
      if uuid != "" && fetched && !multi {
        return;
      }
      i := i + 1;
    }
    uuid := "";
  }

  /** lookupUIdentity: the uuid of the first query of the cascade that returns exactly
      one non-empty uuid, or "" when every strategy is inconclusive. */
  method LookupUIdentity(rows: Rows, u: UIdentity) returns (uuid: string)
    ensures uuid == FirstHit(rows, Cascade(u.profile.name, u.idents, u.emails))
  {
    var name := u.profile.name;
    var s7 := AllFieldsQueries(name, u.idents, u.emails);
    var s6 := SourceUsernameEmailQueries(u.idents, u.emails) + s7;
    var s5 := NameEmailQueries(name, u.emails) + s6;
    var s4 := NameSourceUsernameQueries(name, u.idents) + s5;
    var s3 := EmailQueries(u.emails) + s4;
    var s2 := SourceUsernameQueries(u.idents) + s3;
    FirstHitAppend(rows, [ByName(name)], s2);
    FirstHitAppend(rows, SourceUsernameQueries(u.idents), s3);
    FirstHitAppend(rows, EmailQueries(u.emails), s4);
    FirstHitAppend(rows, NameSourceUsernameQueries(name, u.idents), s5);
    FirstHitAppend(rows, NameEmailQueries(name, u.emails), s6);
    FirstHitAppend(rows, SourceUsernameEmailQueries(u.idents, u.emails), s7);
    // by name
    var fetched, multi;
    uuid, fetched, multi := ScanRows(rows(ByName(name)));
    if uuid != "" && fetched && !multi {
      return;
    }
    // by source/username
    uuid := TryQueries(rows, SourceUsernameQueries(u.idents));
    if uuid != "" { return; }
    // by email
    uuid := TryQueries(rows, EmailQueries(u.emails));
    if uuid != "" { return; }
    // by name & source/username
    uuid := TryQueries(rows, NameSourceUsernameQueries(name, u.idents));
    if uuid != "" { return; }
    // by name & email
    uuid := TryQueries(rows, NameEmailQueries(name, u.emails));
    if uuid != "" { return; }
    // by source/username/email
    uuid := TryQueries(rows, SourceUsernameEmailQueries(u.idents, u.emails));
    if uuid != "" { return; }
    // by name/source/username/email
    uuid := TryQueries(rows, s7);
    if uuid != "" { return; }
    uuid := "";
  }

  /** Ambiguity is never broken by guessing: with no alias data, two identities that
      share the record's name leave it unresolved. */
  lemma SharedNameUnresolved(rows: Rows, name: string)
    requires |rows(ByName(name))| >= 2
    ensures FirstHit(rows, Cascade(name, [], [])) == ""
  {
    assert Cascade(name, [], []) == [ByName(name)];
  }

  /** A resolved uuid always comes from a query of the cascade that returned exactly
      that uuid and nothing else, and every query issued before it was inconclusive. */
  lemma ResolvedByUniqueRow(rows: Rows, u: UIdentity, uuid: string)
    requires uuid == FirstHit(rows, Cascade(u.profile.name, u.idents, u.emails)) && uuid != ""
    ensures var c := Cascade(u.profile.name, u.idents, u.emails);
      exists k :: 0 <= k < |c| && rows(c[k]) == [uuid]
  {
  }
}
