// Vocabulary shared by the record stores: optional values, the two ways the
// stores compare an id argument with a stored id, the "largest id + 1" rule
// every store uses to number new records, and the array helpers (find,
// filter) the stores are written with.
module Common {

  datatype Option<+T> = None | Some(value: T) {
    /** The value, or the fallback when there is none. */
    function GetOr(fallback: T): T
    {
      match this
      case Some(v) => v
      case None => fallback
    }
  }

  /** An id argument as a caller hands it to a store. A number is compared
      as it is; any other value (a route parameter string, NaN) is carried
      together with what parseInt makes of it (None for NaN). */
  datatype IdArg = IntArg(n: int) | OtherArg(asInt: Option<int>)

  /** parseInt(arg): a whole number parses to itself. */
  function ParseInt(arg: IdArg): Option<int>
  {
    match arg
    case IntArg(n) => Some(n)
    case OtherArg(p) => p
  }

  /** `id === arg` for a numeric stored id: only a number can be equal. */
  predicate StrictlyEquals(id: int, arg: IdArg)
  {
    arg == IntArg(id)
  }

  /** `id === parseInt(arg)`: NaN is equal to nothing. */
  predicate MatchesParsed(id: int, arg: IdArg)
  {
    ParseInt(arg) == Some(id)
  }

  /** Math.max over a non-empty list of ids. */
  function Max(s: seq<int>): (m: int)
    requires |s| > 0
    ensures m in s
    ensures forall i :: 0 <= i < |s| ==> s[i] <= m
  {
    if |s| == 1 then s[0]
    else
      var rest := Max(s[1..]);
      if s[0] >= rest then s[0] else rest
  }

  /** The id a store gives a new record: one more than the largest id in
      use, or 1 when the store is empty. */
  function NextId(ids: seq<int>): (n: int)
    ensures forall i :: 0 <= i < |ids| ==> ids[i] < n
    ensures |ids| == 0 ==> n == 1
    ensures |ids| > 0 ==> n - 1 in ids
  {
    if |ids| > 0 then Max(ids) + 1 else 1
  }

  /** NextId is determined by its contract: any k that is above every id and
      whose predecessor is in use is the next id. */
  lemma NextIdIs(ids: seq<int>, k: int)
    requires forall i :: 0 <= i < |ids| ==> ids[i] < k
    requires k - 1 in ids
    ensures NextId(ids) == k
  {
    var n := NextId(ids);
    assert n - 1 < k;
    assert k - 1 < n;
  }

  /** Removing the records that hold the highest id m, while one with id
      m - 1 stays, makes m the next id again: ids are reused. */
  lemma NextIdAfterRemovingMax(ids: seq<int>, rest: seq<int>)
    requires |ids| > 0
    requires forall i :: 0 <= i < |rest| ==> rest[i] in ids && rest[i] != NextId(ids) - 1
    requires NextId(ids) - 2 in rest
    ensures NextId(rest) == NextId(ids) - 1
  {
    var m := NextId(ids) - 1;
    forall i | 0 <= i < |rest| ensures rest[i] < m {
      var j :| 0 <= j < |ids| && ids[j] == rest[i];
    }
    NextIdIs(rest, m);
  }

  predicate Distinct(ids: seq<int>)
  {
    forall i, j :: 0 <= i < j < |ids| ==> ids[i] != ids[j]
  }

  /** Array.prototype.findIndex: the first position whose element satisfies p. */
  function FirstIndex<T>(s: seq<T>, p: T -> bool): (r: Option<nat>)
    ensures r.None? ==> forall i :: 0 <= i < |s| ==> !p(s[i])
    ensures r.Some? ==> r.value < |s| && p(s[r.value])
    ensures r.Some? ==> forall i :: 0 <= i < r.value ==> !p(s[i])
  {
    if |s| == 0 then None
    else if p(s[0]) then Some(0)
    else
      match FirstIndex(s[1..], p)
      case None => None
      case Some(k) => Some(k + 1)
  }

  /** Array.prototype.find: the first element that satisfies p. */
  function Find<T>(s: seq<T>, p: T -> bool): (r: Option<T>)
    ensures r.None? <==> forall i :: 0 <= i < |s| ==> !p(s[i])
    ensures r.Some? ==> exists k :: 0 <= k < |s| && s[k] == r.value && p(s[k]) &&
                                    forall i :: 0 <= i < k ==> !p(s[i])
  {
    match FirstIndex(s, p)
    case None => None
    case Some(k) => Some(s[k])
  }

  /** Array.prototype.filter: the elements that satisfy keep, in order. */
  function Filter<T(!new)>(s: seq<T>, keep: T -> bool): (r: seq<T>)
    ensures |r| <= |s|
    ensures forall x :: x in r <==> x in s && keep(x)
  {
    if |s| == 0 then []
    else (if keep(s[0]) then [s[0]] else []) + Filter(s[1..], keep)
  }

  /** Filtering keeps the relative order: it distributes over concatenation. */
  lemma {:induction false} FilterAppend<T(!new)>(a: seq<T>, b: seq<T>, keep: T -> bool)
    ensures Filter(a + b, keep) == Filter(a, keep) + Filter(b, keep)
  {
    if |a| > 0 {
      assert (a + b)[1..] == a[1..] + b;
      FilterAppend(a[1..], b, keep);
    } else {
      assert a + b == b;
    }
  }

  /** When nothing is filtered out the collection comes back unchanged. */
  lemma {:induction false} FilterKeepsAll<T(!new)>(s: seq<T>, keep: T -> bool)
    requires forall i :: 0 <= i < |s| ==> keep(s[i])
    ensures Filter(s, keep) == s
  {
    if |s| > 0 {
      FilterKeepsAll(s[1..], keep);
    }
  }

  /** Filtering out exactly one position cuts that position out. */
  lemma {:induction false} FilterRemovesOne<T(!new)>(s: seq<T>, k: nat, keep: T -> bool)
    requires k < |s|
    requires !keep(s[k])
    requires forall i :: 0 <= i < |s| && i != k ==> keep(s[i])
    ensures Filter(s, keep) == s[..k] + s[k + 1..]
  {
    var tail := s[1..];
    if k == 0 {
      assert Filter(tail, keep) == tail by {
        forall i | 0 <= i < |tail| ensures keep(tail[i]) {
          assert tail[i] == s[i + 1];
        }
        FilterKeepsAll(tail, keep);
      }
      assert Filter(s, keep) == Filter(tail, keep);
      assert s[..0] + s[1..] == tail;
    } else {
      assert Filter(tail, keep) == tail[..k - 1] + tail[k..] by {
        forall i | 0 <= i < |tail| && i != k - 1 ensures keep(tail[i]) {
          assert tail[i] == s[i + 1];
        }
        FilterRemovesOne(tail, k - 1, keep);
      }
      assert Filter(s, keep) == [s[0]] + Filter(tail, keep);
      assert [s[0]] + (tail[..k - 1] + tail[k..]) == s[..k] + s[k + 1..] by {
        assert s[..k] == [s[0]] + tail[..k - 1];
        assert s[k + 1..] == tail[k..];
      }
    }
  }

  /** No two elements of s share a key. */
  predicate DistinctKeys<T>(s: seq<T>, key: T -> int)
  {
    forall i, j :: 0 <= i < j < |s| ==> key(s[i]) != key(s[j])
  }

  /** Filtering keeps keys that were distinct distinct. */
  lemma {:induction false} FilterKeepsKeysDistinct<T(!new)>(s: seq<T>, keep: T -> bool, key: T -> int)
    requires DistinctKeys(s, key)
    ensures DistinctKeys(Filter(s, keep), key)
  {
    if |s| > 0 {
      var tail := s[1..];
      assert DistinctKeys(tail, key) by {
        forall i, j | 0 <= i < j < |tail| ensures key(tail[i]) != key(tail[j]) {
          assert tail[i] == s[i + 1] && tail[j] == s[j + 1];
        }
      }
      FilterKeepsKeysDistinct(tail, keep, key);
      var rest := Filter(tail, keep);
      if keep(s[0]) {
        var r := [s[0]] + rest;
        assert Filter(s, keep) == r;
        forall i | 0 <= i < |rest| ensures key(rest[i]) != key(s[0]) {
          assert rest[i] in rest;
          var j :| 0 <= j < |tail| && tail[j] == rest[i];
          assert s[j + 1] == rest[i];
        }
        forall i, j | 0 <= i < j < |r| ensures key(r[i]) != key(r[j]) {
          assert r[j] == rest[j - 1];
          if i > 0 {
            assert r[i] == rest[i - 1];
            assert key(rest[i - 1]) != key(rest[j - 1]);
          }
        }
      } else {
        assert Filter(s, keep) == rest;
      }
    }
  }

  /** A number typed into a form field, as the checks read it: blank once
      trimmed, something parseInt reads as NaN, or the integer it reads. */
  datatype NumberField = Blank | NotANumber | IntValue(n: int)

  /** What String.prototype.trim removes: the ECMAScript white space
      (tab, vertical tab, form feed, space, no-break space, the byte order
      mark and the Unicode space separators) and line terminators. */
  predicate IsWhiteSpace(c: char)
  {
    || c == '\t' || c == '\U{000B}' || c == '\U{000C}' || c == ' ' || c == '\U{00A0}' || c == '\U{FEFF}'
    || c == '\U{1680}' || '\U{2000}' <= c <= '\U{200A}' || c == '\U{202F}' || c == '\U{205F}' || c == '\U{3000}'
    || c == '\n' || c == '\r' || c == '\U{2028}' || c == '\U{2029}'
  }

  /** `!s.trim()`: the text is empty once white space is trimmed. */
  predicate IsBlank(s: string)
  {
    forall i :: 0 <= i < |s| ==> IsWhiteSpace(s[i])
  }
}
