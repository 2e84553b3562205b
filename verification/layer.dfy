/** The image layer record (AlImageLayerModel): its construction, copy,
    field setters, operator list management and the no-op `fromElement`.

    The C++ object is mutable; here each mutator is a function from the layer
    before to the layer after (paired with the C++ return value where there
    is one).  Getters are the datatype's field selectors.
 */
module ImageLayer {
  import opened Operators

  /** A 32-bit float, kept as its IEEE 754 bit pattern.  The layer only
      stores and copies these values, so no arithmetic is needed. */
  datatype Float = Float(bits: bv32)

  /** 0.0f */
  const FloatZero := Float(0)
  /** 1.0f */
  const FloatOne := Float(0x3F80_0000)

  newtype Int32 = x: int | -0x8000_0000 <= x < 0x8000_0000

  /** AlRational: a rotation as an integer fraction. */
  datatype Rational = Rational(num: Int32, den: Int32)

  /** The value of a default-constructed AlRational. */
  const DefaultRotation := Rational(0, 1)

  /** AlVec2 */
  datatype Vec2 = Vec2(x: Float, y: Float)

  /** HwResult: the status code the layer's operations return. */
  datatype HwResult = Success | Failed(code: int)

  /** The state of one AlImageLayerModel (the quad is not modelled). */
  datatype Layer = Layer(
    id: Int32,
    path: string,
    alpha: Float,
    rotation: Rational,
    position: Vec2,
    scale: Vec2,
    operators: seq<Operator>)

  /** The fields of a layer, for stating which ones an operation touches. */
  datatype Field = IdField | PathField | AlphaField | RotationField
                 | PositionField | ScaleField | OperatorsField

  /** `a` and `b` hold the same value in field `f`. */
  predicate Agree(a: Layer, b: Layer, f: Field) {
    match f
    case IdField => a.id == b.id
    case PathField => a.path == b.path
    case AlphaField => a.alpha == b.alpha
    case RotationField => a.rotation == b.rotation
    case PositionField => a.position == b.position
    case ScaleField => a.scale == b.scale
    case OperatorsField => a.operators == b.operators
  }

  /** Going from `a` to `b` changed nothing outside field `f`. */
  predicate OnlyChanged(a: Layer, b: Layer, f: Field) {
    forall g :: g != f ==> Agree(a, b, g)
  }

  /** AlImageLayerModel(id, path): the given identity and file, full opacity,
      default rotation, origin position, unit scale and no operators. */
  function New(id: Int32, path: string): (l: Layer)
    ensures l.id == id && l.path == path
    ensures l.alpha == FloatOne
    ensures l.rotation == DefaultRotation
    ensures l.position == Vec2(FloatZero, FloatZero)
    ensures l.scale == Vec2(FloatOne, FloatOne)
    ensures l.operators == []
  {
    Layer(id, path, FloatOne, DefaultRotation, Vec2(FloatZero, FloatZero), Vec2(FloatOne, FloatOne), [])
  }

  /** The copy constructor: every scalar field is copied, the operator list
      of the copy starts empty. */
  function Copy(o: Layer): (l: Layer)
    ensures OnlyChanged(o, l, OperatorsField)
    ensures l.operators == []
  {
    Layer(o.id, o.path, o.alpha, o.rotation, o.position, o.scale, [])
  }

  /** A copy equals its original exactly when the original has no operators,
      and copying a copy changes nothing. */
  lemma CopyFixpoint(o: Layer)
    ensures Copy(o) == o <==> o.operators == []
    ensures Copy(Copy(o)) == Copy(o)
  {
  }

  /** setAlpha */
  function SetAlpha(l: Layer, alpha: Float): (r: Layer)
    ensures r.alpha == alpha
    ensures OnlyChanged(l, r, AlphaField)
  {
    l.(alpha := alpha)
  }

  /** setScale(x, y): both components of the scale, nothing else. */
  function SetScale(l: Layer, x: Float, y: Float): (r: Layer)
    ensures r.scale.x == x && r.scale.y == y
    ensures OnlyChanged(l, r, ScaleField)
  {
    l.(scale := Vec2(x, y))
  }

  /** setRotation(r): numerator and denominator are copied from `rot`, so
      the next getRotation returns a fraction with the same two parts. */
  function SetRotation(l: Layer, rot: Rational): (r: Layer)
    ensures r.rotation.num == rot.num && r.rotation.den == rot.den
    ensures OnlyChanged(l, r, RotationField)
  {
    l.(rotation := Rational(rot.num, rot.den))
  }

  /** setPosition(x, y): both components of the position, nothing else. */
  function SetPosition(l: Layer, x: Float, y: Float): (r: Layer)
    ensures r.position.x == x && r.position.y == y
    ensures OnlyChanged(l, r, PositionField)
  {
    l.(position := Vec2(x, y))
  }

  /** Each setter can be undone by setting the old value back, and a second
      call to the same setter overrides the first. */
  lemma SettersUndoAndOverride(l: Layer, a: Float, b: Float, c: Float, d: Float, rot: Rational, rot2: Rational)
    ensures SetAlpha(SetAlpha(l, a), l.alpha) == l
    ensures SetAlpha(SetAlpha(l, a), b) == SetAlpha(l, b)
    ensures SetScale(SetScale(l, a, b), l.scale.x, l.scale.y) == l
    ensures SetScale(SetScale(l, a, b), c, d) == SetScale(l, c, d)
    ensures SetRotation(SetRotation(l, rot), l.rotation) == l
    ensures SetRotation(SetRotation(l, rot), rot2) == SetRotation(l, rot2)
    ensures SetPosition(SetPosition(l, a, b), l.position.x, l.position.y) == l
    ensures SetPosition(SetPosition(l, a, b), c, d) == SetPosition(l, c, d)
  {
  }

  /** addOperator: `o` goes to the end of the list and SUCCESS is returned. */
  function AddOperator(l: Layer, o: Operator): (res: (HwResult, Layer))
    ensures res.0 == Success
    ensures |res.1.operators| == |l.operators| + 1
    ensures res.1.operators[..|l.operators|] == l.operators
    ensures res.1.operators[|l.operators|] == o
    ensures OnlyChanged(l, res.1, OperatorsField)
  {
    (Success, l.(operators := l.operators + [o]))
  }

  /** _removeOperator(type): erase every operator whose dynamic type is `k`,
      keeping the others in order; true iff something was erased. */
  function RemoveOperator(l: Layer, k: OpKind): (res: (bool, Layer))
    ensures res.0 <==> HasKind(l.operators, k)
    ensures !HasKind(res.1.operators, k)
    ensures Subseq(res.1.operators, l.operators)
    ensures |res.1.operators| == |l.operators| - CountKind(l.operators, k)
    ensures !res.0 ==> res.1 == l
    ensures OnlyChanged(l, res.1, OperatorsField)
  {
    var kept := RemoveKind(l.operators, k);
    (|kept| < |l.operators|, l.(operators := kept))
  }

  /** removeCropOperator: erases the crop operators and keeps every other
      operator, align-crop ones included, in its original order. */
  function RemoveCropOperator(l: Layer): (res: (bool, Layer))
    ensures res.0 <==> HasKind(l.operators, Crop)
    ensures !HasKind(res.1.operators, Crop)
    ensures Subseq(res.1.operators, l.operators)
    ensures |res.1.operators| == |l.operators| - CountKind(l.operators, Crop)
    ensures CountKind(res.1.operators, AlignCrop) == CountKind(l.operators, AlignCrop)
    ensures !res.0 ==> res.1 == l
    ensures OnlyChanged(l, res.1, OperatorsField)
  {
    RemoveKindKeepsOthers(l.operators, Crop, AlignCrop);
    RemoveOperator(l, Crop)
  }

  /** removeAlignCropOperator: erases the align-crop operators and keeps
      every other operator, crop ones included, in its original order. */
  function RemoveAlignCropOperator(l: Layer): (res: (bool, Layer))
    ensures res.0 <==> HasKind(l.operators, AlignCrop)
    ensures !HasKind(res.1.operators, AlignCrop)
    ensures Subseq(res.1.operators, l.operators)
    ensures |res.1.operators| == |l.operators| - CountKind(l.operators, AlignCrop)
    ensures CountKind(res.1.operators, Crop) == CountKind(l.operators, Crop)
    ensures !res.0 ==> res.1 == l
    ensures OnlyChanged(l, res.1, OperatorsField)
  {
    RemoveKindKeepsOthers(l.operators, AlignCrop, Crop);
    RemoveOperator(l, AlignCrop)
  }

  /** Removing the same type twice: the second call reports false and
      leaves the layer as the first call left it. */
  lemma RemoveIdempotent(l: Layer, k: OpKind)
    ensures RemoveOperator(RemoveOperator(l, k).1, k) == (false, RemoveOperator(l, k).1)
  {
  }

  /** The removal agrees with the erase loop run on the layer's list. */
  method RemoveOperatorByLoop(l: Layer, k: OpKind) returns (removed: bool, r: Layer)
    ensures (removed, r) == RemoveOperator(l, k)
  {
    var ops;
    removed, ops := RemoveLoop(l.operators, k);
    r := l.(operators := ops);
  }

  /** Adding an operator and then removing its type reports a removal and
      gives the same list as removing that type before the addition. */
  lemma {:induction false} AddThenRemove(l: Layer, o: Operator)
    ensures RemoveOperator(AddOperator(l, o).1, o.kind) == (true, RemoveOperator(l, o.kind).1)
  {
    var l1 := AddOperator(l, o).1;
    assert l1.operators == l.operators + [o];
    RemoveKindAppend(l.operators, [o], o.kind);
    assert RemoveKind([o], o.kind) == [] by {
      assert [o][1..] == [];
    }
    assert l1.operators[|l.operators|].kind == o.kind;
    assert HasKind(l1.operators, o.kind);
    assert RemoveKind(l1.operators, o.kind) == RemoveKind(l.operators, o.kind);
    assert RemoveOperator(l1, o.kind).0;
    assert RemoveOperator(l1, o.kind).1 == RemoveOperator(l, o.kind).1;
  }

  /** Adding an operator of another type commutes with the removal. */
  lemma {:induction false} AddOtherThenRemove(l: Layer, o: Operator, k: OpKind)
    requires o.kind != k
    ensures RemoveOperator(AddOperator(l, o).1, k).1 == AddOperator(RemoveOperator(l, k).1, o).1
  {
    RemoveKindAppend(l.operators, [o], k);
    assert RemoveKind([o], k) == [o] by {
      assert [o][1..] == [];
    }
  }

  /** fromElement: accepts any element, reports SUCCESS and leaves the layer
      as it was. */
  function FromElement<E>(l: Layer, element: E): (res: (HwResult, Layer))
    ensures res.0 == Success
    ensures res.1 == l
  {
    (Success, l)
  }
}
