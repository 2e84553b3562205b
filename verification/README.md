# Image layer model of hwvc, in Dafny

This project models `AlImageLayerModel`, the data model of one layer of an
image in the hwvc editor. A layer holds an id and a file path. It also holds
an opacity (`alpha`), a rotation as an integer fraction, a position, a scale
and an ordered list of operators, such as crop and align-crop, that are
applied to the layer. The model covers these operations:

- the constructor and the copy constructor;
- the field setters;
- `addOperator`;
- the three erase-while-iterating removal loops;
- the stub `fromElement`;
- `toElement`, which writes the layer into a generic attributed tree
  (`AlElement`).

Files:

- `operators.dfy` (module `Operators`): an operator is a value tagged with
  its dynamic type (`Crop | AlignCrop | Other(k)`). The C++ test
  `typeid(X) == typeid(*it)` becomes tag equality. Removal is the sequence
  filter `RemoveKind`. Three independent facts characterise it completely:
  it leaves no operator of the type, its result is a subsequence of the
  input (`Subseq`), and its length drops by the count of that type. The
  lemma `RemoveKindUnique` proves this characterisation. `RemoveLoop` is the
  imperative erase loop, and it is proved equal to the filter.
- `layer.dfy` (module `ImageLayer`): the layer record and its operations.
  Each mutator is a function from the layer before to the layer after.
  `OnlyChanged(a, b, f)` states that nothing outside field `f` changed.
- `element.dfy` (module `Elements`): the generic tree, with a tag, an
  attribute map and a list of children. `Option` stands for a nullable
  element pointer.
- `serialise.dfy` (module `LayerSerialise`): `toElement`.
  `StringUtils::valueOf` and each operator's own `toElement` are passed in
  as function parameters (`Formatter`, `OperatorSerialiser`). The tree's
  shape is therefore proved for every possible formatting.

The getters (`getPath`, `getId`, `getAlpha`, `getScale`, `getRotation`,
`getPosition`) are the field selectors of the `Layer` datatype. Float-valued
fields are stored as their IEEE 754 bit patterns (`Float(bits: bv32)`). For
example, `1.0f` is `0x3F800000`. The layer only assigns and copies these
values, so the assignment properties are exact.

## Model

| member | source | states |
|---|---|---|
| Operators.RemoveKind | src/al_image/model/AlImageLayerModel.cpp:184-197 | after the erase loop, no operator of the removed type is left; the survivors are a subsequence of the original, in the original order; exactly the operators of that type are gone; the list shrinks iff one was present and is untouched otherwise |
| Operators.RemoveKindUnique | src/al_image/model/AlImageLayerModel.cpp:184-197 | any list that has no operator of the type, is an order-preserving subsequence of the original, and is the right length is exactly the loop's result, so the properties above fully determine the removal |
| Operators.RemoveKindIdempotent | src/al_image/model/AlImageLayerModel.cpp:184-197 | a second removal of the same type finds nothing and changes nothing |
| Operators.RemoveKindKeepsOthers | src/al_image/model/AlImageLayerModel.cpp:154-182 | removing one type keeps every operator of another type (removeCropOperator keeps the align-crop operators and vice versa) |
| Operators.RemoveKindCommute | src/al_image/model/AlImageLayerModel.cpp:154-182 | removing two types in either order gives the same list |
| Operators.RemoveLoop | src/al_image/model/AlImageLayerModel.cpp:184-197 | the iterator/erase loop computes the filter; its flag is true iff an operator of the type was present; if the flag is false, the list is unchanged |
| ImageLayer.New | src/al_image/model/AlImageLayerModel.cpp:36-45 | a new layer has the given id and path, alpha 1.0f, the default rotation, position (0,0), scale (1,1) and no operators |
| ImageLayer.Copy | src/al_image/model/AlImageLayerModel.cpp:47-56 | the copy agrees with the original on every scalar field; its operator list is empty |
| ImageLayer.CopyFixpoint | src/al_image/model/AlImageLayerModel.cpp:47-56 | a copy equals its original iff the original has no operators; copying a copy changes nothing |
| ImageLayer.SetAlpha | src/al_image/model/AlImageLayerModel.cpp:75-81 | the next getAlpha returns the new value; no other field changes |
| ImageLayer.SetScale | src/al_image/model/AlImageLayerModel.cpp:83-90 | both scale components take the new values; no other field changes |
| ImageLayer.SetRotation | src/al_image/model/AlImageLayerModel.cpp:92-99 | the next getRotation returns the given numerator and denominator; no other field changes |
| ImageLayer.SetPosition | src/al_image/model/AlImageLayerModel.cpp:101-104 | both position components take the new values; no other field changes |
| ImageLayer.SettersUndoAndOverride | src/al_image/model/AlImageLayerModel.cpp:75-104 | setting a field back to its old value restores the layer; a second call to a setter overrides the first |
| ImageLayer.AddOperator | src/al_image/model/AlImageLayerModel.cpp:145-148 | returns SUCCESS; the list grows by one, the old list is its prefix, the new operator is last, and nothing else changes |
| ImageLayer.RemoveOperator | src/al_image/model/AlImageLayerModel.cpp:184-197 | returns true iff an operator of the type was present; none is left; the rest keep their order; on false the layer is unchanged; only the operator list changes |
| ImageLayer.RemoveCropOperator | src/al_image/model/AlImageLayerModel.cpp:154-167 | returns true iff a crop operator was present; none is left; every other operator (align-crop and any other type) survives in its original order, since the result is a subsequence shorter by exactly the crop count; on false the layer is unchanged |
| ImageLayer.RemoveAlignCropOperator | src/al_image/model/AlImageLayerModel.cpp:169-182 | returns true iff an align-crop operator was present; none is left; every other operator (crop and any other type) survives in its original order, since the result is a subsequence shorter by exactly the align-crop count; on false the layer is unchanged |
| ImageLayer.RemoveIdempotent | src/al_image/model/AlImageLayerModel.cpp:184-197 | a second removal of the same type returns false and leaves the layer as the first removal left it |
| ImageLayer.RemoveOperatorByLoop | src/al_image/model/AlImageLayerModel.cpp:184-197 | running the erase loop on the layer's list gives the same flag and layer as the removal |
| ImageLayer.AddThenRemove | src/al_image/model/AlImageLayerModel.cpp:145-197 | adding an operator and then removing its type returns true and gives the same layer as removing that type without the addition |
| ImageLayer.AddOtherThenRemove | src/al_image/model/AlImageLayerModel.cpp:145-197 | adding an operator of another type commutes with the removal |
| ImageLayer.FromElement | src/al_image/model/AlImageLayerModel.cpp:199-201 | returns SUCCESS and leaves the layer unchanged, whatever the element |
| LayerSerialise.Vec2Element | src/al_image/model/AlImageLayerModel.cpp:210-220 | a scale or position child has the given tag, exactly the attributes x and y with the formatted components, and no children |
| LayerSerialise.RationalElement | src/al_image/model/AlImageLayerModel.cpp:214-216 | the rotation child has exactly the attributes num and den with the formatted parts, and no children |
| LayerSerialise.OperatorElements | src/al_image/model/AlImageLayerModel.cpp:226-233 | one element per operator that yields a non-null element, and no others; the element of operator i sits at the position given by the number of non-null elements before it, so list order is kept |
| LayerSerialise.CountSomeAll | src/al_image/model/AlImageLayerModel.cpp:226-233 | no operator is skipped (one child per operator) exactly when every operator yields a non-null element |
| LayerSerialise.OperatorElementsUnique | src/al_image/model/AlImageLayerModel.cpp:226-233 | that count and that order determine the element list completely |
| LayerSerialise.AppendOperatorChildren | src/al_image/model/AlImageLayerModel.cpp:226-233 | the indexed loop appends, after the existing children, the elements of the operators that yield one, in list order, and leaves tag and attributes alone |
| LayerSerialise.ToElement | src/al_image/model/AlImageLayerModel.cpp:203-235 | SUCCESS; root tagged layer with exactly the attributes path, id and alpha; children in order scale (x, y), rotation (num, den), position (x, y), then the operator elements, skipping nulls; 3 + that many children |
| LayerSerialise.ToElementAddOperator | src/al_image/model/AlImageLayerModel.cpp:145-148 | after addOperator, the serialised tree gains exactly the new operator's element (if any) at the end |
| LayerSerialise.ToElementNoOperators | src/al_image/model/AlImageLayerModel.cpp:36-56 | a new layer and a copy serialise to exactly the three fixed children; a copy keeps the original's attributes and first three children |
| LayerSerialise.RemoveSilentKind | src/al_image/model/AlImageLayerModel.cpp:184-197 | removing operators that produce no element does not change the operator children |
| LayerSerialise.ToElementRemoveSilent | src/al_image/model/AlImageLayerModel.cpp:184-197 | removing a type whose operators produce no element leaves the serialised tree unchanged |
| LayerSerialise.ToElementSetAlpha | src/al_image/model/AlImageLayerModel.cpp:75-77 | after setAlpha, the serialised tree differs only in its alpha attribute |

## Left out

- `HwJavaNativeHelper` (proj/hwvc_android/codec_native/src/main/cpp/native/include/HwJavaNativeHelper.h): a JNI helper made of foreign calls into the Java VM plus a per-thread `JNIEnv` map (`envMap`). Both are outside the layer model.
- `getAllOperators` (AlImageLayerModel.cpp:150-152): it returns a pointer to the layer's own operator vector, a mutable alias. Callers can push, erase or reorder operators through it without going through `addOperator` or the removal loops. Changes made through that alias are not modelled; the operator list changes only through the modelled operations.
- Operators are assumed non-null. `Operator` has no null value, but `addOperator` (AlImageLayerModel.cpp:145-148) appends a null pointer without checking. After that, each removal loop evaluates `typeid(*it)` on it, which throws `std::bad_typeid`, and `toElement` calls `toElement` through it (line 229), which is undefined behaviour.
- `postPosition`: float addition, which is floating-point arithmetic. The layer's floats are opaque bit patterns here.
- `setQuad`/`getQuad` and the `quad` field: `AlQuad` is not part of this model, and its fields are floats.
- `dump`: logging only.
- The destructor: it frees the operator objects, which has no observable functional result.
- `create(AlIdentityCreator*, path)`: it depends on an id generator that is not part of this model. `create(id, path)` only calls the constructor, which `ImageLayer.New` models.
- `StringUtils::valueOf` and each operator's own `toElement`: these are not part of this model. They are function parameters, so the text they produce is not modelled.
- `AlElement` is not part of this model. `Elements.AddAttr` treats an attribute as a map entry that a later `addAttr` with the same name would overwrite. `Elements.AddChild` appends. The layer never writes the same attribute twice, so for the trees built here the choice between overwriting and keeping duplicates makes no difference.
- `AlRational` is not part of this model. The value of a default-constructed rational is taken to be 0/1 (`ImageLayer.DefaultRotation`). Only the constructor's contract depends on this choice.
- The `id` and the rotation's parts are 32-bit integers (`Int32`). The layer only copies them, so no wrap-around arises.
- `_removeOperator` takes a `type_info` by value. Dynamic types are modelled as tags, so a subclass of the crop model counts as a different type, just as the exact `typeid` comparison in the source treats it.
- `fromElement` is a stub in the source: it reads nothing and returns SUCCESS. There is therefore no decoder to prove a round trip against. Instead, `toElement` is tied to the other operations by the `ToElement*` lemmas.
