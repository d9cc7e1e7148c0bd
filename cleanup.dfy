/** cleanupUnaffiliated: drop the enrollments whose organization is "Unaffiliated"
    by overwriting the matched slot with the last enrollment and shortening the list.

    The loop as written ranges over the list as it was when the loop started, so after
    a removal it still visits the slots past the new end and may index past the list
    (a Go runtime panic). CleanupAsWritten models that code, panic included;
    RemoveUnaffiliated is the corrected removal the rest of the model uses. */
module Cleanup {
  import opened Wrappers
  import opened Records

  const Unaffiliated := "Unaffiliated"

  predicate IsUnaffiliated(e: Enrollment)
  {
    e.organization == Unaffiliated
  }

  const IndexOutOfRange := "runtime error: index out of range"

  // ---- the loop as written ----

  /** One iteration of the inner range loop at slot j. b is the backing array the range
      reads from and len the current length of the list; a fresh empty list (the
      `last == 0` branch) is length 0 over the same backing array, which the range keeps
      reading. */
  function Visit(b: seq<Enrollment>, len: nat, j: nat): (r: Result<(seq<Enrollment>, nat)>)
    requires j < |b| && len <= |b|
    ensures r.Ok? ==> |r.value.0| == |b| && r.value.1 <= len
  {
    if !IsUnaffiliated(b[j]) then Ok((b, len))
    else if len == 1 then Ok((b, 0))
    else if j >= len then Fatal(IndexOutOfRange)
    else Ok((b[j := b[len - 1]], len - 1))
  }

  /** The inner loop from slot j to the end of the original range. */
  function Run(b: seq<Enrollment>, len: nat, j: nat): (r: Result<(seq<Enrollment>, nat)>)
    requires j <= |b| && len <= |b|
    ensures r.Ok? ==> |r.value.0| == |b| && r.value.1 <= |b|
    decreases |b| - j
  {
    if j == |b| then Ok((b, len))
    else match Visit(b, len, j)
      case Fatal(m) => Fatal(m)
      case Ok((b', len')) => Run(b', len', j + 1)
  }

  /** What cleanupUnaffiliated, as written, leaves in one identity's enrollment list. */
  function AsWritten(es: seq<Enrollment>): Result<seq<Enrollment>>
  {
    match Run(es, |es|, 0)
    case Fatal(m) => Fatal(m)
    case Ok((b, len)) => Ok(b[..len])
  }

  /** The inner loop of cleanupUnaffiliated exactly as written. */
  method CleanupAsWritten(es: seq<Enrollment>) returns (r: Result<seq<Enrollment>>)
    ensures r == AsWritten(es)
  {
    var b := es;
    var len: nat := |es|;
    var j := 0;
    while j < |es|
      invariant 0 <= j <= |es| && |b| == |es| && len <= |b|
      invariant Run(es, |es|, 0) == Run(b, len, j)
    {
      if b[j].organization == Unaffiliated {
        var last := len - 1;
        if last == 0 {
          len := 0;
        } else if j >= len {
          return Fatal(IndexOutOfRange);
        } else {
          b := b[j := b[last]];
          len := last;
        }
      }
      j := j + 1;
    }
    r := Ok(b[..len]);
  }

  /** A list without "Unaffiliated" is left alone. */
  lemma {:induction false} RunWithoutUnaffiliated(b: seq<Enrollment>, len: nat, j: nat)
    requires j <= |b| && len <= |b|
    requires forall k :: j <= k < |b| ==> !IsUnaffiliated(b[k])
    ensures Run(b, len, j) == Ok((b, len))
    decreases |b| - j
  {
    if j < |b| {
      RunWithoutUnaffiliated(b, len, j + 1);
    }
  }

  lemma AsWrittenWithoutUnaffiliated(es: seq<Enrollment>)
    requires forall k :: 0 <= k < |es| ==> !IsUnaffiliated(es[k])
    ensures AsWritten(es) == Ok(es)
  {
    RunWithoutUnaffiliated(es, |es|, 0);
    assert es[..|es|] == es;
  }

  /** A single "Unaffiliated" enrollment at slot k is replaced by the last enrollment
      and the list is one shorter. */
  lemma AsWrittenSingle(es: seq<Enrollment>, k: nat)
    requires k < |es| && IsUnaffiliated(es[k])
    requires forall i :: 0 <= i < |es| && i != k ==> !IsUnaffiliated(es[i])
    ensures AsWritten(es) == Ok(es[k := es[|es| - 1]][..|es| - 1])
  {
    var n := |es|;
    PrefixWithoutUnaffiliated(es, k);
    if n == 1 {
      assert Visit(es, n, k) == Ok((es, 0));
      RunWithoutUnaffiliated(es, 0, k + 1);
    } else {
      var b := es[k := es[n - 1]];
      assert Visit(es, n, k) == Ok((b, n - 1));
      RunWithoutUnaffiliated(b, n - 1, k + 1);
    }
  }

  /** Before the only "Unaffiliated" slot the loop changes nothing. */
  lemma {:induction false} PrefixWithoutUnaffiliated(es: seq<Enrollment>, k: nat)
    requires k < |es|
    requires forall i :: 0 <= i < k ==> !IsUnaffiliated(es[i])
    ensures Run(es, |es|, 0) == Run(es, |es|, k)
  {
    if k > 0 {
      PrefixWithoutUnaffiliated(es, k - 1);
      assert Visit(es, |es|, k - 1) == Ok((es, |es|));
    }
  }

  /** A lone "Unaffiliated" enrollment leaves an empty list. */
  lemma AsWrittenLone(e: Enrollment)
    requires IsUnaffiliated(e)
    ensures AsWritten([e]) == Ok([])
  {
    AsWrittenSingle([e], 0);
  }

  /** [Unaffiliated, X, Unaffiliated]: the first removal shortens the list to two, the
      range still visits slot 2, finds the copy of the last enrollment there and indexes
      past the end. */
  lemma AsWrittenPanics(u: Enrollment, x: Enrollment)
    requires IsUnaffiliated(u) && !IsUnaffiliated(x)
    ensures AsWritten([u, x, u]).Fatal?
  {
    var es := [u, x, u];
    var b := es[0 := u];
    assert Visit(es, 3, 0) == Ok((b, 2));
    assert Visit(b, 2, 1) == Ok((b, 2));
    assert Visit(b, 2, 2) == Fatal(IndexOutOfRange);
    assert Run(b, 2, 2) == Fatal(IndexOutOfRange);
    assert Run(b, 2, 1) == Run(b, 2, 2);
    assert Run(es, 3, 0) == Run(b, 2, 1);
  }

  // ---- the corrected removal ----

  /** The enrollments that are not "Unaffiliated", in order: what the cleanup is meant
      to keep. */
  function Affiliated(es: seq<Enrollment>): (r: seq<Enrollment>)
    ensures forall k :: 0 <= k < |r| ==> !IsUnaffiliated(r[k])
  {
    if es == [] then []
    else Affiliated(es[..|es| - 1]) + (if IsUnaffiliated(es[|es| - 1]) then [] else [es[|es| - 1]])
  }

  /** Affiliated keeps every other enrollment as often as it occurs. */
  lemma {:induction false} AffiliatedCount(es: seq<Enrollment>, e: Enrollment)
    ensures multiset(Affiliated(es))[e] == if IsUnaffiliated(e) then 0 else multiset(es)[e]
  {
    if es != [] {
      var n := |es| - 1;
      AffiliatedCount(es[..n], e);
      assert es == es[..n] + [es[n]];
    }
  }

  /** Removing slot j by the swap with the last slot removes exactly that enrollment. */
  lemma SwapRemove(es: seq<Enrollment>, j: nat)
    requires j < |es|
    ensures multiset(es[j := es[|es| - 1]][..|es| - 1]) == multiset(es) - multiset{es[j]}
  {
    var n := |es| - 1;
    assert es == es[..n] + [es[n]];
    if j < n {
      assert es[j := es[n]][..n] == es[..n][j := es[n]];
    } else {
      assert es[j := es[n]][..n] == es[..n];
    }
  }

  /** Splitting a list into enrollments without "Unaffiliated" and removed ones that
      are all "Unaffiliated" keeps exactly Affiliated. */
  lemma KeptIsAffiliated(es: seq<Enrollment>, kept: seq<Enrollment>, removed: multiset<Enrollment>)
    requires forall k :: 0 <= k < |kept| ==> !IsUnaffiliated(kept[k])
    requires forall e :: e in removed ==> IsUnaffiliated(e)
    requires multiset(kept) + removed == multiset(es)
    ensures multiset(kept) == multiset(Affiliated(es))
  {
    forall e
      ensures multiset(kept)[e] == multiset(Affiliated(es))[e]
    {
      AffiliatedCount(es, e);
      if IsUnaffiliated(e) {
        assert e !in kept;
      } else {
        assert e !in removed;
      }
    }
  }

  /** No enrollment of the list is "Unaffiliated". */
  predicate NoneUnaffiliated(es: seq<Enrollment>)
  {
    forall k :: 0 <= k < |es| ==> !IsUnaffiliated(es[k])
  }

  /** The removal loop's invariant: slots before j are kept, the rest of es went into
      removed, and only "Unaffiliated" enrollments were removed. */
  predicate Removing(es: seq<Enrollment>, r: seq<Enrollment>, j: nat, removed: multiset<Enrollment>)
  {
    j <= |r|
    && (forall k :: 0 <= k < j ==> !IsUnaffiliated(r[k]))
    && multiset(r) + removed == multiset(es)
    && (forall e :: e in removed ==> IsUnaffiliated(e))
    && (NoneUnaffiliated(es) ==> r == es)
  }

  /** Removing an "Unaffiliated" slot j keeps the removal loop's invariant. */
  lemma RemovalStep(es: seq<Enrollment>, r: seq<Enrollment>, j: nat, removed: multiset<Enrollment>)
    requires Removing(es, r, j, removed) && j < |r| && IsUnaffiliated(r[j])
    ensures Removing(es, r[j := r[|r| - 1]][..|r| - 1], j, removed + multiset{r[j]})
  {
    var shorter := r[j := r[|r| - 1]][..|r| - 1];
    SwapRemove(r, j);
    assert r[j] in multiset(r);
    assert multiset(shorter) + multiset{r[j]} == multiset(r);
    assert forall k :: 0 <= k < j ==> shorter[k] == r[k];
  }

  /** Passing over a slot that is not "Unaffiliated" keeps the invariant. */
  lemma KeepStep(es: seq<Enrollment>, r: seq<Enrollment>, j: nat, removed: multiset<Enrollment>)
    requires Removing(es, r, j, removed) && j < |r| && !IsUnaffiliated(r[j])
    ensures Removing(es, r, j + 1, removed)
  {
  }

  /** The inner loop with the slot re-examined after each swap: every "Unaffiliated"
      enrollment goes, every other one stays, and a list without any is left as it is. */
  method RemoveUnaffiliated(es: seq<Enrollment>) returns (r: seq<Enrollment>)
    ensures forall k :: 0 <= k < |r| ==> !IsUnaffiliated(r[k])
    ensures multiset(r) == multiset(Affiliated(es))
    ensures NoneUnaffiliated(es) ==> r == es
  {
    r := es;
    ghost var removed: multiset<Enrollment> := multiset{};
    var j := 0;
    while j < |r|
      invariant Removing(es, r, j, removed)
      decreases |r| - j
    {
      if r[j].organization == Unaffiliated {
        var last := |r| - 1;
        RemovalStep(es, r, j, removed);
        removed := removed + multiset{r[j]};
        r := r[j := r[last]][..last];
      } else {
        KeepStep(es, r, j, removed);
        j := j + 1;
      }
    }
    KeptIsAffiliated(es, r, removed);
  }

  /** The corrected removal agrees with the code as written on a single
      "Unaffiliated" enrollment. */
  lemma AffiliatedSingle(es: seq<Enrollment>, k: nat)
    requires k < |es| && IsUnaffiliated(es[k])
    requires forall i :: 0 <= i < |es| && i != k ==> !IsUnaffiliated(es[i])
    ensures AsWritten(es).Ok? && multiset(Affiliated(es)) == multiset(AsWritten(es).value)
  {
    AsWrittenSingle(es, k);
    SwapKeepsAffiliated(es, k);
  }

  /** Swapping out the only "Unaffiliated" slot keeps exactly the affiliated enrollments. */
  lemma SwapKeepsAffiliated(es: seq<Enrollment>, k: nat)
    requires k < |es| && IsUnaffiliated(es[k])
    requires forall i :: 0 <= i < |es| && i != k ==> !IsUnaffiliated(es[i])
    ensures multiset(es[k := es[|es| - 1]][..|es| - 1]) == multiset(Affiliated(es))
  {
    var kept := es[k := es[|es| - 1]][..|es| - 1];
    SwapRemove(es, k);
    assert es[k] in multiset(es);
    assert multiset(kept) + multiset{es[k]} == multiset(es);
    SwapNoneUnaffiliated(es, k);
    KeptIsAffiliated(es, kept, multiset{es[k]});
  }

  lemma SwapNoneUnaffiliated(es: seq<Enrollment>, k: nat)
    requires k < |es| && IsUnaffiliated(es[k])
    requires forall i :: 0 <= i < |es| && i != k ==> !IsUnaffiliated(es[i])
    ensures NoneUnaffiliated(es[k := es[|es| - 1]][..|es| - 1])
  {
    var n := |es|;
    var swapped := es[k := es[n - 1]];
    var kept := swapped[..n - 1];
    forall i | 0 <= i < n - 1
      ensures !IsUnaffiliated(kept[i])
    {
      assert kept[i] == swapped[i];
      if i == k {
        assert swapped[i] == es[n - 1];
      } else {
        assert swapped[i] == es[i];
      }
    }
  }

  // ---- the loop as written, when it does not panic ----

  /** The number of "Unaffiliated" enrollments of a list. */
  function UnaffiliatedCount(s: seq<Enrollment>): nat
  {
    if s == [] then 0
    else UnaffiliatedCount(s[..|s| - 1]) + (if IsUnaffiliated(s[|s| - 1]) then 1 else 0)
  }

  lemma {:induction false} UnaffiliatedCountAppend(a: seq<Enrollment>, b: seq<Enrollment>)
    ensures UnaffiliatedCount(a + b) == UnaffiliatedCount(a) + UnaffiliatedCount(b)
  {
    if b == [] {
      assert a + b == a;
    } else {
      var n := |b| - 1;
      UnaffiliatedCountAppend(a, b[..n]);
      assert (a + b)[..|a + b| - 1] == a + b[..n];
    }
  }

  lemma UnaffiliatedCountOne(e: Enrollment)
    ensures UnaffiliatedCount([e]) == if IsUnaffiliated(e) then 1 else 0
  {
    assert [e][..0] == [];
  }

  lemma {:induction false} UnaffiliatedCountZero(s: seq<Enrollment>)
    requires UnaffiliatedCount(s) == 0
    ensures NoneUnaffiliated(s)
  {
    if s != [] {
      var n := |s| - 1;
      UnaffiliatedCountZero(s[..n]);
      assert forall k :: 0 <= k < n ==> s[k] == s[..n][k];
    }
  }

  /** Why the code as written never keeps an "Unaffiliated" enrollment when it does not
      panic. The visited slots of the list (before j and before len) that still hold one
      are as many as the stale slots ahead of the loop (at or past both j and len) that
      hold one: a swap that copies an "Unaffiliated" last enrollment into slot j leaves
      its original behind the new end, where the range will meet it again. Meeting such
      a stale slot panics unless the list has one element left, which is then one of the
      stale copies and is dropped. */
  predicate Balanced(b: seq<Enrollment>, len: nat, j: nat)
    requires j <= |b| && len <= |b|
  {
    UnaffiliatedCount(b[..if j < len then j else len]) == UnaffiliatedCount(b[if j < len then len else j..])
  }

  /** The state of the loop as written at slot j: the list is b[..len], only
      "Unaffiliated" enrollments have left it, and the stale copies balance. */
  predicate Scanning(es: seq<Enrollment>, b: seq<Enrollment>, len: nat, j: nat, removed: multiset<Enrollment>)
  {
    |b| == |es| && len <= |b| && j <= |b| && Balanced(b, len, j)
    && multiset(b[..len]) + removed == multiset(es)
    && (forall e :: e in removed ==> IsUnaffiliated(e))
  }

  /** Passing over an enrollment that is not "Unaffiliated". */
  lemma ScanKeep(es: seq<Enrollment>, b: seq<Enrollment>, len: nat, j: nat, removed: multiset<Enrollment>)
    requires Scanning(es, b, len, j, removed) && j < |b| && !IsUnaffiliated(b[j])
    ensures Scanning(es, b, len, j + 1, removed)
  {
    UnaffiliatedCountOne(b[j]);
    if j < len {
      assert b[..j + 1] == b[..j] + [b[j]];
      UnaffiliatedCountAppend(b[..j], [b[j]]);
    } else {
      assert b[j..] == [b[j]] + b[j + 1..];
      UnaffiliatedCountAppend([b[j]], b[j + 1..]);
    }
  }

  /** The `last == 0` branch: the one enrollment left is "Unaffiliated" and goes. */
  lemma ScanEmpty(es: seq<Enrollment>, b: seq<Enrollment>, j: nat, removed: multiset<Enrollment>)
    requires Scanning(es, b, 1, j, removed) && j < |b| && IsUnaffiliated(b[j])
    ensures IsUnaffiliated(b[0]) && Scanning(es, b, 0, j + 1, removed + multiset{b[0]})
  {
    assert b[..1] == [b[0]];
    UnaffiliatedCountOne(b[0]);
    if j > 0 {
      assert b[j..] == [b[j]] + b[j + 1..];
      UnaffiliatedCountAppend([b[j]], b[j + 1..]);
      UnaffiliatedCountOne(b[j]);
    }
  }

  /** The swap with the last enrollment, at a slot inside the list. */
  lemma ScanSwap(es: seq<Enrollment>, b: seq<Enrollment>, len: nat, j: nat, removed: multiset<Enrollment>)
    requires Scanning(es, b, len, j, removed) && j < len && 2 <= len && IsUnaffiliated(b[j])
    ensures Scanning(es, b[j := b[len - 1]], len - 1, j + 1, removed + multiset{b[j]})
  {
    var n := len - 1;
    var b' := b[j := b[n]];
    SwapRemove(b[..len], j);
    assert b'[..n] == b[..len][j := b[..len][n]][..n];
    assert b[j] in multiset(b[..len]);
    if j < n {
      assert b'[..j + 1] == b[..j] + [b[n]];
      assert b'[n..] == [b[n]] + b[len..];
      UnaffiliatedCountAppend(b[..j], [b[n]]);
      UnaffiliatedCountAppend([b[n]], b[len..]);
    } else {
      assert b' == b;
    }
  }

  /** One slot of the loop as written, when it does not panic, keeps Scanning. */
  lemma ScanStep(es: seq<Enrollment>, b: seq<Enrollment>, len: nat, j: nat, removed: multiset<Enrollment>)
    returns (removed': multiset<Enrollment>)
    requires Scanning(es, b, len, j, removed) && j < |b| && Visit(b, len, j).Ok?
    ensures Scanning(es, Visit(b, len, j).value.0, Visit(b, len, j).value.1, j + 1, removed')
  {
    if !IsUnaffiliated(b[j]) {
      ScanKeep(es, b, len, j, removed);
      removed' := removed;
    } else if len == 1 {
      ScanEmpty(es, b, j, removed);
      removed' := removed + multiset{b[0]};
    } else {
      ScanSwap(es, b, len, j, removed);
      removed' := removed + multiset{b[j]};
    }
  }

  lemma {:induction false} RunScanned(es: seq<Enrollment>, b: seq<Enrollment>, len: nat, j: nat,
                                      removed: multiset<Enrollment>)
    requires Scanning(es, b, len, j, removed) && Run(b, len, j).Ok?
    ensures var (b', len') := Run(b, len, j).value;
      len' <= |b'| && NoneUnaffiliated(b'[..len']) && multiset(b'[..len']) == multiset(Affiliated(es))
    decreases |b| - j
  {
    if j == |b| {
      assert b[j..] == [];
      UnaffiliatedCountZero(b[..len]);
      KeptIsAffiliated(es, b[..len], removed);
    } else {
      var removed' := ScanStep(es, b, len, j, removed);
      var (b', len') := Visit(b, len, j).value;
      RunScanned(es, b', len', j + 1, removed');
    }
  }

  /** Whenever the code as written does not panic it keeps exactly the enrollments
      that are not "Unaffiliated", as the corrected removal does. */
  lemma AsWrittenAgrees(es: seq<Enrollment>)
    requires AsWritten(es).Ok?
    ensures NoneUnaffiliated(AsWritten(es).value)
    ensures multiset(AsWritten(es).value) == multiset(Affiliated(es))
  {
    assert es[..0] == [] && es[|es|..] == [] && es[..|es|] == es;
    RunScanned(es, es, |es|, 0, multiset{});
  }

  /** What the cleanup does to one record: only its enrollment list changes, to the
      affiliated enrollments, and a record without "Unaffiliated" is kept as it was. */
  predicate Cleaned(before: UIdentity, after: UIdentity)
  {
    after == before.(enrollments := after.enrollments)
    && NoneUnaffiliated(after.enrollments)
    && multiset(after.enrollments) == multiset(Affiliated(before.enrollments))
    && (NoneUnaffiliated(before.enrollments) ==> after == before)
  }

  /** cleanupUnaffiliated over the records of one file, with the corrected removal. */
  method CleanupUnaffiliated(ids: array<UIdentity>)
    modifies ids
    ensures forall i :: 0 <= i < ids.Length ==> Cleaned(old(ids[i]), ids[i])
  {
    var i := 0;
    while i < ids.Length
      invariant 0 <= i <= ids.Length
      invariant forall k :: i <= k < ids.Length ==> ids[k] == old(ids[k])
      invariant forall k :: 0 <= k < i ==> Cleaned(old(ids[k]), ids[k])
    {
      var kept := RemoveUnaffiliated(ids[i].enrollments);
      ids[i] := ids[i].(enrollments := kept);
      i := i + 1;
    }
  }
}
