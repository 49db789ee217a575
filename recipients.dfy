/**
 The recipient list of the share panel: an ordered list of addresses without
 duplicates, grown by the Add button (`[...recipients, newRecipient.trim()]`)
 and shrunk by the remove buttons (`recipients.filter((r) => r !== email)`).
 */
module Recipients {
  import opened Text

  /** No address appears twice (exact, case-sensitive comparison). */
  predicate NoDuplicates(rs: seq<string>) {
    forall i, j :: 0 <= i < j < |rs| ==> rs[i] != rs[j]
  }

  /** Every address is non-empty and has no whitespace at either end, as Add
      leaves it. */
  predicate AllTrimmed(rs: seq<string>) {
    forall i :: 0 <= i < |rs| ==> IsTrimmed(rs[i])
  }

  /** `a` is `b` with some entries dropped and the rest in their original order. */
  predicate IsSubsequence(a: seq<string>, b: seq<string>)
    decreases |b|
  {
    a == [] || (b != [] && ((a[0] == b[0] && IsSubsequence(a[1..], b[1..])) || IsSubsequence(a, b[1..])))
  }

  /** The list after Add with `input` typed in the recipient field: the trimmed
      input is appended at the end when it is non-empty and not yet listed;
      otherwise the list is left as it was. */
  function WithRecipient(rs: seq<string>, input: string): (r: seq<string>)
    ensures r == rs || r == rs + [Trim(input)]
    ensures r != rs <==> Trim(input) != "" && Trim(input) !in rs
  {
    var t := Trim(input);
    if t != "" && t !in rs then rs + [t] else rs
  }

  /** The list after removing `e`: no occurrence of `e` is left, and every
      other entry keeps its number of occurrences and its relative order. */
  function WithoutRecipient(rs: seq<string>, e: string): (r: seq<string>)
    ensures e !in r
    ensures IsSubsequence(r, rs)
    ensures forall x :: x != e ==> multiset(r)[x] == multiset(rs)[x]
  {
    if rs == [] then
      []
    else
      var tail := WithoutRecipient(rs[1..], e);
      assert rs == [rs[0]] + rs[1..];
      if rs[0] == e then
        tail
      else
        var r := [rs[0]] + tail;
        assert r[1..] == tail;
        r
  }

  /** Add keeps the list free of duplicates. */
  lemma AddKeepsNoDuplicates(rs: seq<string>, input: string)
    requires NoDuplicates(rs)
    ensures NoDuplicates(WithRecipient(rs, input))
  {
    var r := WithRecipient(rs, input);
    if r != rs {
      assert r == rs + [Trim(input)] && Trim(input) !in rs;
      forall i, j | 0 <= i < j < |r| ensures r[i] != r[j] {
        assert r[i] == rs[i];
        if j < |rs| {
          assert r[j] == rs[j];
        }
      }
    }
  }

  /** Add keeps every entry non-empty and without whitespace at either end. */
  lemma AddKeepsTrimmed(rs: seq<string>, input: string)
    requires AllTrimmed(rs)
    ensures AllTrimmed(WithRecipient(rs, input))
  {
    var r := WithRecipient(rs, input);
    if r != rs {
      assert r == rs + [Trim(input)] && IsTrimmed(Trim(input));
      forall i | 0 <= i < |r| ensures IsTrimmed(r[i]) {
        if i < |rs| {
          assert r[i] == rs[i];
        }
      }
    }
  }

  /** Removing an address that is not listed leaves the list as it was. */
  lemma {:induction false} WithoutAbsentUnchanged(rs: seq<string>, e: string)
    requires e !in rs
    ensures WithoutRecipient(rs, e) == rs
  {
    if rs != [] {
      assert e !in rs[1..];
      WithoutAbsentUnchanged(rs[1..], e);
      assert rs == [rs[0]] + rs[1..];
    }
  }

  /** An entry survives removal exactly when it was listed and is not `e`. */
  lemma WithoutMembers(rs: seq<string>, e: string, x: string)
    ensures x in WithoutRecipient(rs, e) <==> x in rs && x != e
  {
    var r := WithoutRecipient(rs, e);
    if x != e {
      assert multiset(r)[x] == multiset(rs)[x];
    }
  }

  /** Removal keeps the list free of duplicates. */
  lemma {:induction false} RemoveKeepsNoDuplicates(rs: seq<string>, e: string)
    requires NoDuplicates(rs)
    ensures NoDuplicates(WithoutRecipient(rs, e))
  {
    if rs != [] {
      var tail := rs[1..];
      assert NoDuplicates(tail) by {
        forall i, j | 0 <= i < j < |tail| ensures tail[i] != tail[j] {
          assert tail[i] == rs[i + 1] && tail[j] == rs[j + 1];
        }
      }
      RemoveKeepsNoDuplicates(tail, e);
      if rs[0] != e {
        var w := WithoutRecipient(tail, e);
        var r := WithoutRecipient(rs, e);
        assert r == [rs[0]] + w;
        assert rs[0] !in tail by {
          forall k | 0 <= k < |tail| ensures tail[k] != rs[0] {
            assert tail[k] == rs[k + 1];
          }
        }
        WithoutMembers(tail, e, rs[0]);
        forall i, j | 0 <= i < j < |r| ensures r[i] != r[j] {
          assert r[j] == w[j - 1];
          if i > 0 {
            assert r[i] == w[i - 1];
          }
        }
      }
    }
  }

  /** Removal keeps every entry non-empty and trimmed. */
  lemma RemoveKeepsTrimmed(rs: seq<string>, e: string)
    requires AllTrimmed(rs)
    ensures AllTrimmed(WithoutRecipient(rs, e))
  {
    var r := WithoutRecipient(rs, e);
    forall i | 0 <= i < |r| ensures IsTrimmed(r[i]) {
      WithoutMembers(rs, e, r[i]);
    }
  }

  /** A list without duplicates holds each address at most once. */
  lemma {:induction false} NoDuplicatesCount(rs: seq<string>, x: string)
    requires NoDuplicates(rs)
    ensures multiset(rs)[x] <= 1
  {
    if rs != [] {
      assert rs == [rs[0]] + rs[1..];
      assert NoDuplicates(rs[1..]) by {
        forall i, j | 0 <= i < j < |rs| - 1 ensures rs[1..][i] != rs[1..][j] {
          assert rs[1..][i] == rs[i + 1] && rs[1..][j] == rs[j + 1];
        }
      }
      NoDuplicatesCount(rs[1..], x);
      if rs[0] == x {
        assert x !in rs[1..] by {
          forall k | 0 <= k < |rs| - 1 ensures rs[1..][k] != x {
            assert rs[1..][k] == rs[k + 1];
          }
        }
      }
    }
  }

  /** Typing the same address twice and pressing Add each time lists it
      exactly once. */
  lemma AddTwiceListsOnce(rs: seq<string>, input: string)
    requires NoDuplicates(rs)
    requires Trim(input) != ""
    ensures multiset(WithRecipient(WithRecipient(rs, input), input))[Trim(input)] == 1
  {
    var r := WithRecipient(WithRecipient(rs, input), input);
    NoDuplicatesCount(r, Trim(input));
  }

  /** Removing a listed address from a list without duplicates takes exactly
      one entry out. */
  lemma {:induction false} RemoveListedShrinksByOne(rs: seq<string>, e: string)
    requires NoDuplicates(rs) && e in rs
    ensures |WithoutRecipient(rs, e)| == |rs| - 1
  {
    var r := WithoutRecipient(rs, e);
    NoDuplicatesCount(rs, e);
    assert multiset(rs) == multiset(r) + multiset{e} by {
      forall x ensures multiset(rs)[x] == (multiset(r) + multiset{e})[x] {
        if x == e {
          assert multiset(r)[x] == 0;
        }
      }
    }
    assert |multiset(rs)| == |multiset(r)| + 1;
  }
}
