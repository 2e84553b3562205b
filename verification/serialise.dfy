/** AlImageLayerModel::toElement: the layer as a generic attributed tree.

    The text of a number (StringUtils::valueOf) and the element an operator
    produces for itself are not part of this model; both arrive as function
    parameters, so what is proved here is the shape of the tree, whatever
    those collaborators return.
 */
module LayerSerialise {
  import opened Operators
  import opened ImageLayer
  import opened Elements

  const TagLayer := "layer"
  const TagScale := "scale"
  const TagRotation := "rotation"
  const TagPosition := "position"

  const ValPath := "path"
  const ValId := "id"
  const ValAlpha := "alpha"
  const ValNum := "num"
  const ValDen := "den"
  const ValX := "x"
  const ValY := "y"

  /** StringUtils::valueOf for the two argument types the layer formats. */
  datatype Formatter = Formatter(ofInt: Int32 -> string, ofFloat: Float -> string)

  /** An operator's own toElement: the element it builds, or None when it
      leaves the out-pointer null. */
  type OperatorSerialiser = Operator -> Option<Element>

  /** The child for a two-component vector: attributes `x` and `y`. */
  function Vec2Element(tag: string, v: Vec2, fmt: Formatter): (e: Element)
    ensures e.tag == tag && e.children == []
    ensures e.attrs == map[ValX := fmt.ofFloat(v.x), ValY := fmt.ofFloat(v.y)]
  {
    AddAttr(AddAttr(Empty(tag), ValX, fmt.ofFloat(v.x)), ValY, fmt.ofFloat(v.y))
  }

  /** The rotation child: attributes `num` and `den`. */
  function RationalElement(r: Rational, fmt: Formatter): (e: Element)
    ensures e.tag == TagRotation && e.children == []
    ensures e.attrs == map[ValNum := fmt.ofInt(r.num), ValDen := fmt.ofInt(r.den)]
  {
    AddAttr(AddAttr(Empty(TagRotation), ValNum, fmt.ofInt(r.num)), ValDen, fmt.ofInt(r.den))
  }

  /** The element list of one operator. */
  function Present(o: Operator, ser: OperatorSerialiser): (es: seq<Element>)
    ensures |es| <= 1
    ensures es == [] <==> ser(o) == None
  {
    match ser(o)
    case Some(e) => [e]
    case None => []
  }

  /** Number of operators of `ops` that produce an element. */
  function CountSome(ops: seq<Operator>, ser: OperatorSerialiser): (c: nat)
    ensures c <= |ops|
  {
    if ops == [] then 0
    else (if ser(ops[0]).Some? then 1 else 0) + CountSome(ops[1..], ser)
  }

  /** Every operator yields an element exactly when the count is the
      length of the list, i.e. when no child is skipped. */
  lemma {:induction false} CountSomeAll(ops: seq<Operator>, ser: OperatorSerialiser)
    ensures CountSome(ops, ser) == |ops| <==> forall i :: 0 <= i < |ops| ==> ser(ops[i]).Some?
    decreases |ops|
  {
    if ops != [] {
      CountSomeAll(ops[1..], ser);
      if forall i :: 0 <= i < |ops[1..]| ==> ser(ops[1..][i]).Some? {
        forall i | 0 < i < |ops|
          ensures ser(ops[i]).Some?
        {
          assert ops[i] == ops[1..][i - 1];
        }
      }
    }
  }

  /** `es` lists the elements of `ops` in list order: the element of each
      operator that produces one sits at the position given by the number
      of operators before it that produce one. */
  predicate InListOrder(ops: seq<Operator>, ser: OperatorSerialiser, es: seq<Element>) {
    forall i {:trigger CountSome(ops[..i], ser)} :: 0 <= i < |ops| && ser(ops[i]).Some? ==>
      CountSome(ops[..i], ser) < |es| && es[CountSome(ops[..i], ser)] == ser(ops[i]).value
  }

  /** The elements of the operators that produce one, in list order: one
      child per non-null element and nothing else. */
  function OperatorElements(ops: seq<Operator>, ser: OperatorSerialiser): (es: seq<Element>)
    ensures |es| == CountSome(ops, ser)
    ensures InListOrder(ops, ser, es)
  {
    if ops == [] then []
    else
      var rest := OperatorElements(ops[1..], ser);
      var es := Present(ops[0], ser) + rest;
      assert InListOrder(ops, ser, es) by {
        forall i | 0 <= i < |ops| && ser(ops[i]).Some?
          ensures CountSome(ops[..i], ser) < |es| && es[CountSome(ops[..i], ser)] == ser(ops[i]).value
        {
          if i > 0 {
            assert ops[..i][1..] == ops[1..][..i - 1];
            assert ops[1..][i - 1] == ops[i];
          }
        }
      }
      es
  }

  /** The count and the order fix the element list: any list with one entry
      per non-null element, each in its place, is `OperatorElements`. */
  lemma {:induction false} OperatorElementsUnique(ops: seq<Operator>, ser: OperatorSerialiser, es: seq<Element>)
    requires |es| == CountSome(ops, ser)
    requires InListOrder(ops, ser, es)
    ensures es == OperatorElements(ops, ser)
    decreases |ops|
  {
    if ops != [] {
      var p := |Present(ops[0], ser)|;
      var tail := es[p..];
      forall i | 0 <= i < |ops[1..]| && ser(ops[1..][i]).Some?
        ensures CountSome(ops[1..][..i], ser) < |tail| && tail[CountSome(ops[1..][..i], ser)] == ser(ops[1..][i]).value
      {
        assert ops[..i + 1][1..] == ops[1..][..i];
        assert ops[i + 1] == ops[1..][i];
        assert CountSome(ops[..i + 1], ser) == p + CountSome(ops[1..][..i], ser);
      }
      OperatorElementsUnique(ops[1..], ser, tail);
      if p == 1 {
        assert ops[..0] == [];
        assert CountSome(ops[..0], ser) == 0;
        assert es == [es[0]] + tail;
      } else {
        assert es == tail;
      }
    }
  }

  /** The element list of a concatenation is the concatenation of the
      element lists. */
  lemma {:induction false} OperatorElementsAppend(a: seq<Operator>, b: seq<Operator>, ser: OperatorSerialiser)
    ensures OperatorElements(a + b, ser) == OperatorElements(a, ser) + OperatorElements(b, ser)
    decreases |a|
  {
    if a == [] {
      assert a + b == b;
    } else {
      assert (a + b)[0] == a[0];
      assert (a + b)[1..] == a[1..] + b;
      OperatorElementsAppend(a[1..], b, ser);
    }
  }

  /** A one-operator list contributes that operator's element, if any. */
  lemma OperatorElementsSingle(o: Operator, ser: OperatorSerialiser)
    ensures OperatorElements([o], ser) == Present(o, ser)
  {
  }

  /** One more operator of the walk adds its element, if any, at the end. */
  lemma OperatorElementsStep(ops: seq<Operator>, i: nat, ser: OperatorSerialiser)
    requires i < |ops|
    ensures OperatorElements(ops[..i + 1], ser) == OperatorElements(ops[..i], ser) + Present(ops[i], ser)
  {
    assert ops[..i + 1] == ops[..i] + [ops[i]];
    OperatorElementsAppend(ops[..i], [ops[i]], ser);
    OperatorElementsSingle(ops[i], ser);
  }

  /** The loop at the end of toElement: for each operator in list order, ask
      it for its element and append that element as a child unless it is
      null. */
  method AppendOperatorChildren(root: Element, ops: seq<Operator>, ser: OperatorSerialiser)
    returns (r: Element)
    ensures r.tag == root.tag && r.attrs == root.attrs
    ensures r.children == root.children + OperatorElements(ops, ser)
  {
    r := root;
    var i := 0;
    while i < |ops|
      invariant 0 <= i <= |ops|
      invariant r.tag == root.tag && r.attrs == root.attrs
      invariant r.children == root.children + OperatorElements(ops[..i], ser)
    {
      var opt := ser(ops[i]);
      OperatorElementsStep(ops, i, ser);
      if opt.Some? {
        r := AddChild(r, opt.value);
      }
      i := i + 1;
    }
    assert ops[..i] == ops;
  }

  /** The root element before the operator children are added: tag `layer`,
      the three attributes and the three fixed children. */
  function LayerHead(l: Layer, fmt: Formatter): (e: Element)
    ensures e.tag == TagLayer
    ensures e.attrs == map[ValPath := l.path, ValId := fmt.ofInt(l.id), ValAlpha := fmt.ofFloat(l.alpha)]
    ensures e.children == [Vec2Element(TagScale, l.scale, fmt), RationalElement(l.rotation, fmt),
                           Vec2Element(TagPosition, l.position, fmt)]
  {
    var root := AddAttr(AddAttr(AddAttr(Empty(TagLayer), ValPath, l.path),
                                ValId, fmt.ofInt(l.id)),
                        ValAlpha, fmt.ofFloat(l.alpha));
    var scale := Vec2Element(TagScale, l.scale, fmt);
    var rotation := RationalElement(l.rotation, fmt);
    var pos := Vec2Element(TagPosition, l.position, fmt);
    AddChild(AddChild(AddChild(root, scale), rotation), pos)
  }

  /** toElement: SUCCESS with a root tagged `layer` carrying `path`, `id`
      and `alpha`, whose children are scale, rotation and position followed
      by the element of every operator that produces one, in list order. */
  function ToElement(l: Layer, fmt: Formatter, ser: OperatorSerialiser): (res: (HwResult, Element))
    ensures res.0 == Success
    ensures res.1.tag == TagLayer
    ensures res.1.attrs == map[ValPath := l.path, ValId := fmt.ofInt(l.id), ValAlpha := fmt.ofFloat(l.alpha)]
    ensures |res.1.children| == 3 + |OperatorElements(l.operators, ser)|
    ensures res.1.children[0].tag == TagScale
    ensures res.1.children[0].attrs == map[ValX := fmt.ofFloat(l.scale.x), ValY := fmt.ofFloat(l.scale.y)]
    ensures res.1.children[1].tag == TagRotation
    ensures res.1.children[1].attrs == map[ValNum := fmt.ofInt(l.rotation.num), ValDen := fmt.ofInt(l.rotation.den)]
    ensures res.1.children[2].tag == TagPosition
    ensures res.1.children[2].attrs == map[ValX := fmt.ofFloat(l.position.x), ValY := fmt.ofFloat(l.position.y)]
    ensures res.1.children[0].children == [] && res.1.children[1].children == []
    ensures res.1.children[2].children == []
    ensures res.1.children[3..] == OperatorElements(l.operators, ser)
  {
    var head := LayerHead(l, fmt);
    var kids := OperatorElements(l.operators, ser);
    var e := Element(head.tag, head.attrs, head.children + kids);
    assert e.children[0] == Vec2Element(TagScale, l.scale, fmt);
    assert e.children[1] == RationalElement(l.rotation, fmt);
    assert e.children[2] == Vec2Element(TagPosition, l.position, fmt);
    assert e.children[3..] == kids;
    (Success, e)
  }

  /** Serialising after addOperator appends exactly the new operator's
      element, if it has one, after the old children. */
  lemma ToElementAddOperator(l: Layer, o: Operator, fmt: Formatter, ser: OperatorSerialiser)
    ensures ToElement(AddOperator(l, o).1, fmt, ser).1
            == ToElement(l, fmt, ser).1.(children := ToElement(l, fmt, ser).1.children + Present(o, ser))
  {
    var l1 := AddOperator(l, o).1;
    var head := LayerHead(l, fmt);
    assert LayerHead(l1, fmt) == head;
    assert l1.operators == l.operators + [o];
    OperatorElementsAppend(l.operators, [o], ser);
    OperatorElementsSingle(o, ser);
    var kids := OperatorElements(l.operators, ser);
    assert ToElement(l, fmt, ser).1 == Element(head.tag, head.attrs, head.children + kids);
    assert ToElement(l1, fmt, ser).1 == Element(head.tag, head.attrs, head.children + (kids + Present(o, ser)));
  }

  /** A fresh layer and a copy serialise to exactly the three fixed
      children, since neither has operators. */
  lemma ToElementNoOperators(l: Layer, id: Int32, path: string, fmt: Formatter, ser: OperatorSerialiser)
    ensures |ToElement(New(id, path), fmt, ser).1.children| == 3
    ensures ToElement(New(id, path), fmt, ser).1.attrs[ValAlpha] == fmt.ofFloat(FloatOne)
    ensures ToElement(Copy(l), fmt, ser).1.attrs == ToElement(l, fmt, ser).1.attrs
    ensures ToElement(Copy(l), fmt, ser).1.children == ToElement(l, fmt, ser).1.children[..3]
  {
  }

  /** Removing operators of a type that never produces an element leaves
      the serialised tree unchanged. */
  lemma {:induction false} RemoveSilentKind(ops: seq<Operator>, k: OpKind, ser: OperatorSerialiser)
    requires forall i :: 0 <= i < |ops| && ops[i].kind == k ==> ser(ops[i]) == None
    ensures OperatorElements(RemoveKind(ops, k), ser) == OperatorElements(ops, ser)
    decreases |ops|
  {
    if ops != [] {
      assert forall i :: 0 <= i < |ops[1..]| ==> ops[1..][i] == ops[i + 1];
      RemoveSilentKind(ops[1..], k, ser);
    }
  }

  /** The element of a layer after a removal is that of the layer before
      whenever the removed type never produces an element. */
  lemma ToElementRemoveSilent(l: Layer, k: OpKind, fmt: Formatter, ser: OperatorSerialiser)
    requires forall i :: 0 <= i < |l.operators| && l.operators[i].kind == k ==> ser(l.operators[i]) == None
    ensures ToElement(RemoveOperator(l, k).1, fmt, ser) == ToElement(l, fmt, ser)
  {
    RemoveSilentKind(l.operators, k, ser);
  }

  /** setAlpha changes only the `alpha` attribute of the serialised root. */
  lemma ToElementSetAlpha(l: Layer, a: Float, fmt: Formatter, ser: OperatorSerialiser)
    ensures ToElement(SetAlpha(l, a), fmt, ser).1
            == ToElement(l, fmt, ser).1.(attrs := ToElement(l, fmt, ser).1.attrs[ValAlpha := fmt.ofFloat(a)])
  {
  }
}
