/** The operator list of an image layer and its removal-by-dynamic-type loops.

    An operator (AlAbsOperateModel*) is modelled as a value carrying the tag of
    its dynamic type and an identity standing for the object pointer, so two
    distinct operators of the same type stay distinguishable.  The C++ test
    `typeid(X) == typeid(*it)` is an exact match on the dynamic type, which is
    tag equality here.
 */
module Operators {

  /** The dynamic type of an operator: the two crop models the layer names
      explicitly, or any other operate model, told apart by a number. */
  datatype OpKind = Crop | AlignCrop | Other(k: nat)

  /** An operator object: its dynamic type and its identity (the pointer). */
  datatype Operator = Operator(kind: OpKind, ref: nat)

  /** True when some operator of `ops` has dynamic type `k`. */
  predicate HasKind(ops: seq<Operator>, k: OpKind) {
    exists i :: 0 <= i < |ops| && ops[i].kind == k
  }

  /** Number of operators of `ops` whose dynamic type is `k`. */
  function CountKind(ops: seq<Operator>, k: OpKind): (c: nat)
    ensures c <= |ops|
    ensures c == 0 <==> !HasKind(ops, k)
  {
    if ops == [] then 0
    else (if ops[0].kind == k then 1 else 0) + CountKind(ops[1..], k)
  }

  /** `a` is `b` with some elements dropped, the rest kept in their order. */
  predicate Subseq(a: seq<Operator>, b: seq<Operator>)
    decreases |b|
  {
    || a == []
    || (&& b != []
        && ((a[0] == b[0] && Subseq(a[1..], b[1..])) || Subseq(a, b[1..])))
  }

  /** The operators of `ops` that are not of type `k`, in their original
      order: what one pass of the erase-while-iterating loop leaves behind. */
  function RemoveKind(ops: seq<Operator>, k: OpKind): (r: seq<Operator>)
    ensures forall i :: 0 <= i < |r| ==> r[i].kind != k
    ensures Subseq(r, ops)
    ensures |r| == |ops| - CountKind(ops, k)
    ensures HasKind(ops, k) <==> |r| < |ops|
    ensures !HasKind(ops, k) ==> r == ops
  {
    if ops == [] then []
    else
      var rest := RemoveKind(ops[1..], k);
      if ops[0].kind == k then
        rest
      else
        assert HasKind(ops[1..], k) ==> HasKind(ops, k) by {
          if HasKind(ops[1..], k) {
            var i :| 0 <= i < |ops[1..]| && ops[1..][i].kind == k;
            assert ops[i + 1].kind == k;
          }
        }
        assert HasKind(ops, k) ==> HasKind(ops[1..], k) by {
          if HasKind(ops, k) {
            var i :| 0 <= i < |ops| && ops[i].kind == k;
            assert i != 0;
            assert ops[1..][i - 1].kind == k;
          }
        }
        [ops[0]] + rest
  }

  /** Filtering distributes over concatenation. */
  lemma {:induction false} RemoveKindAppend(a: seq<Operator>, b: seq<Operator>, k: OpKind)
    ensures RemoveKind(a + b, k) == RemoveKind(a, k) + RemoveKind(b, k)
    decreases |a|
  {
    if a == [] {
      assert a + b == b;
    } else {
      assert (a + b)[1..] == a[1..] + b;
      assert (a + b)[0] == a[0];
      RemoveKindAppend(a[1..], b, k);
    }
  }

  /** A subsequence free of type `k` is no longer than the operators of
      other types it was drawn from. */
  lemma {:induction false} SubseqLengthBound(s: seq<Operator>, t: seq<Operator>, k: OpKind)
    requires forall i :: 0 <= i < |s| ==> s[i].kind != k
    requires Subseq(s, t)
    ensures |s| <= |t| - CountKind(t, k)
    decreases |t|
  {
    if s == [] {
    } else if s[0] == t[0] && Subseq(s[1..], t[1..]) {
      SubseqLengthBound(s[1..], t[1..], k);
    } else {
      SubseqLengthBound(s, t[1..], k);
    }
  }

  /** The filter is the only sequence that drops exactly the operators of
      type `k` and keeps the order of the rest: the three properties of
      `RemoveKind` characterise it completely. */
  lemma {:induction false} RemoveKindUnique(ops: seq<Operator>, k: OpKind, s: seq<Operator>)
    requires forall i :: 0 <= i < |s| ==> s[i].kind != k
    requires Subseq(s, ops)
    requires |s| == |ops| - CountKind(ops, k)
    ensures s == RemoveKind(ops, k)
    decreases |ops|
  {
    if ops == [] {
    } else if ops[0].kind == k {
      if s == [] {
        RemoveKindUnique(ops[1..], k, s);
      } else {
        assert s[0] != ops[0];
        RemoveKindUnique(ops[1..], k, s);
      }
    } else if s != [] && s[0] == ops[0] && Subseq(s[1..], ops[1..]) {
      RemoveKindUnique(ops[1..], k, s[1..]);
      assert s == [s[0]] + s[1..];
    } else {
      assert Subseq(s, ops[1..]);
      SubseqLengthBound(s, ops[1..], k);
      assert false;
    }
  }

  /** Removing a type twice removes nothing the second time. */
  lemma RemoveKindIdempotent(ops: seq<Operator>, k: OpKind)
    ensures !HasKind(RemoveKind(ops, k), k)
    ensures RemoveKind(RemoveKind(ops, k), k) == RemoveKind(ops, k)
  {
  }

  /** Filtering by one type keeps every operator of another type: the removal
      of crop operators never touches align-crop operators and vice versa. */
  lemma {:induction false} RemoveKindKeepsOthers(ops: seq<Operator>, k: OpKind, j: OpKind)
    requires k != j
    ensures CountKind(RemoveKind(ops, k), j) == CountKind(ops, j)
    decreases |ops|
  {
    if ops != [] {
      RemoveKindKeepsOthers(ops[1..], k, j);
    }
  }

  /** Removals of two different types commute. */
  lemma {:induction false} RemoveKindCommute(ops: seq<Operator>, k: OpKind, j: OpKind)
    ensures RemoveKind(RemoveKind(ops, k), j) == RemoveKind(RemoveKind(ops, j), k)
    decreases |ops|
  {
    if ops != [] {
      RemoveKindCommute(ops[1..], k, j);
    }
  }

  /** The erase-while-iterating loop of the layer, on a vector `v` walked by
      the iterator position `i`: an operator of type `k` is erased and the
      iterator stays where it is, any other operator is stepped over.
      `removed` becomes true on the first erase. */
  method RemoveLoop(ops: seq<Operator>, k: OpKind) returns (removed: bool, v: seq<Operator>)
    ensures v == RemoveKind(ops, k)
    ensures removed <==> HasKind(ops, k)
    ensures !removed ==> v == ops
  {
    removed := false;
    v := ops;
    var i := 0;
    while i < |v|
      invariant i <= |v| <= |ops|
      invariant RemoveKind(v, k) == RemoveKind(ops, k)
      invariant forall x :: 0 <= x < i ==> v[x].kind != k
      invariant removed <==> |v| < |ops|
      invariant !removed ==> v == ops
      decreases |v| - i
    {
      if v[i].kind == k {
        EraseStep(v, i, k);
        v := v[..i] + v[i + 1..];
        removed := true;
      } else {
        i := i + 1;
      }
    }
    assert !HasKind(v, k);
  }

  /** Erasing an operator of type `k` does not change what the filter keeps. */
  lemma EraseStep(v: seq<Operator>, i: nat, k: OpKind)
    requires i < |v| && v[i].kind == k
    ensures RemoveKind(v[..i] + v[i + 1..], k) == RemoveKind(v, k)
  {
    assert v == v[..i] + ([v[i]] + v[i + 1..]);
    RemoveKindAppend(v[..i], [v[i]] + v[i + 1..], k);
    RemoveKindAppend(v[..i], v[i + 1..], k);
    assert ([v[i]] + v[i + 1..])[1..] == v[i + 1..];
  }
}
