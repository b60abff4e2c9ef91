/** The older translators over property nodes. A property node is the same
    descriptor tree (a transform is a `Typed` node, its argument the node's
    data) and the rules are those of `static_mesh` and `static_texture`, with
    missing texture fields reported by name. */
module Legacy {
  import opened Descriptor
  import opened PonToResource

  /** `as_transform()`: the node must be a transform. */
  function AsTransform(node: Pon): Result<Pon>
  {
    if node.Typed? then Ok(node) else Err(MismatchType("transform", KindName(node)))
  }

  /** The layout loop of a legacy `static_mesh` does not panic. */
  predicate PropnodeMeshPanicFree(node: Pon)
  {
    node.Typed? && node.typeName == "static_mesh" && FieldAsArray(node.data, "layout").Ok? ==>
      LayoutPanicFree(FieldAsArray(node.data, "layout").value)
  }

  /** `propnode_to_mesh`: only `static_mesh` is recognised. Its layout loop is
      the same loop as `pon_to_layout`'s. */
  function PropnodeToMesh(node: Pon): (r: Result<Mesh>)
    requires PropnodeMeshPanicFree(node)
    ensures !node.Typed? ==> r == Err(MismatchType("transform", KindName(node)))
    ensures node.Typed? && node.typeName != "static_mesh" ==>
      r == Err(UnrecognizedPropTransform(node.typeName))
  {
    var t :- AsTransform(node);
    if t.typeName == "static_mesh" then
      var es :- FieldAsArray(t.data, "layout");
      var layout :- LayoutOf(es);
      var vertices :- FieldAsFloatArray(t.data, "vertices");
      var indices :- FieldAsIntegerArray(t.data, "indices");
      Ok(Mesh(layout, vertices, seq(|indices|, k requires 0 <= k < |indices| => U32(indices[k]))))
    else
      Err(UnrecognizedPropTransform(t.typeName))
  }

  /** The legacy `static_mesh` compiles exactly when its three fields are
      well formed; its layout has one (name, count) pair per entry in input
      order, its vertex data is `vertices` and its element data is `indices`
      narrowed to `u32`. The result is the one `pon_to_mesh` gives. */
  lemma PropnodeStaticMeshCorrect(lib: MeshLibrary, data: Pon)
    requires PropnodeMeshPanicFree(Typed("static_mesh", data))
    ensures PropnodeToMesh(Typed("static_mesh", data)) == PonToMesh(lib, Typed("static_mesh", data))
    ensures PropnodeToMesh(Typed("static_mesh", data)).Ok? <==> StaticMeshFieldsOk(data)
    ensures PropnodeToMesh(Typed("static_mesh", data)).Ok? ==>
      var m := PropnodeToMesh(Typed("static_mesh", data)).value;
      var es := data.fields["layout"].elems;
      var vs := data.fields["vertices"].elems;
      var ixs := data.fields["indices"].elems;
      && |m.layout| == |es| && (forall i :: 0 <= i < |es| ==> m.layout[i] == PairSpec(es[i]))
      && |m.vertexData| == |vs| && (forall i :: 0 <= i < |vs| ==> m.vertexData[i] == vs[i].bits)
      && |m.elementData| == |ixs| && (forall i :: 0 <= i < |ixs| ==> m.elementData[i] == ixs[i].i % 0x1_0000_0000)
  {
    StaticMeshCorrect(lib, data);
  }

  /** One named field of the texture argument: `NoSuchField` when absent. */
  function Get(arg: map<string, Pon>, name: string): Result<Pon>
  {
    if name in arg then Ok(arg[name]) else Err(NoSuchField(name))
  }

  /** `propnode_to_texture`: `static_texture` over an object argument, and
      `texture_from_file` over a string argument. */
  function PropnodeToTexture(openImage: string -> Decoded, node: Pon): (r: Result<RgbaImage>)
    ensures !node.Typed? ==> r == Err(MismatchType("transform", KindName(node)))
    ensures node.Typed? && node.typeName != "static_texture" && node.typeName != "texture_from_file" ==>
      r == Err(UnrecognizedPropTransform(node.typeName))
    ensures node.Typed? && node.typeName == "static_texture" && !node.data.Object? ==>
      r == Err(MismatchType("object", KindName(node.data)))
    ensures node.Typed? && node.typeName == "texture_from_file" ==>
      if node.data.String? then
        match openImage(node.data.s)
        case Decoded(image) => r == Ok(image)
        case DecodeFailed(cause) => r == Err(ImageLoadFailed(node.data.s, cause))
      else r == Err(MismatchType("string", KindName(node.data)))
  {
    var t :- AsTransform(node);
    if t.typeName == "static_texture" then
      var arg :- AsObject(t.data);
      var pixelsNode :- Get(arg, "pixels");
      var pixels :- AsIntegerArray(pixelsNode);
      var widthNode :- Get(arg, "width");
      var width :- AsInteger(widthNode);
      var heightNode :- Get(arg, "height");
      var height :- AsInteger(heightNode);
      ImageFromPixels(pixels, width, height)
    else if t.typeName == "texture_from_file" then
      var filename :- AsString(t.data);
      match openImage(filename)
      case Decoded(image) => Ok(image)
      case DecodeFailed(cause) => Err(ImageLoadFailed(filename, cause))
    else
      Err(UnrecognizedPropTransform(t.typeName))
  }

  /** Missing `pixels`, `width` or `height` is reported as `NoSuchField`
      naming that field, checked in that order. */
  lemma PropnodeTextureMissingField(openImage: string -> Decoded, arg: map<string, Pon>)
    ensures var r := PropnodeToTexture(openImage, Typed("static_texture", Object(arg)));
      && ("pixels" !in arg ==> r == Err(NoSuchField("pixels")))
      && ("pixels" in arg && arg["pixels"].Array? && AllIntegers(arg["pixels"].elems) && "width" !in arg ==>
            r == Err(NoSuchField("width")))
      && ("pixels" in arg && arg["pixels"].Array? && AllIntegers(arg["pixels"].elems) &&
          "width" in arg && arg["width"].Integer? && "height" !in arg ==>
            r == Err(NoSuchField("height")))
  {
  }

  /** With its three fields present and of the right kinds, the legacy
      `static_texture` fails unless `width * height * 4` equals the pixel
      count (for fewer than 2^32 values), and otherwise returns an image of
      those dimensions over the pixel values mod 256; it agrees with
      `pon_to_texture` on the same descriptor. */
  lemma PropnodeStaticTextureCorrect(assets: Assets, data: Pon)
    requires StaticTextureFieldsOk(data) && |data.fields["pixels"].elems| < 0x1_0000_0000
    ensures var r := PropnodeToTexture(assets.openImage, Typed("static_texture", data));
      var ps := data.fields["pixels"].elems;
      var w := data.fields["width"].i % 0x1_0000_0000;
      var h := data.fields["height"].i % 0x1_0000_0000;
      && (r.Ok? <==> w * h * 4 == |ps|)
      && (r.Ok? ==>
            r.value.width == w && r.value.height == h && |r.value.bytes| == |ps| &&
            (forall k :: 0 <= k < |ps| ==> r.value.bytes[k] == ps[k].i % 256) &&
            PonToTexture(assets, Typed("static_texture", data)) == Ok(Image(r.value)))
  {
    StaticTextureCorrect(assets, data);
  }

  /** On every input the legacy `static_texture` gives the image or the error
      that `pon_to_texture` gives. */
  lemma PropnodeStaticTextureAgrees(assets: Assets, data: Pon)
    ensures var r := PropnodeToTexture(assets.openImage, Typed("static_texture", data));
      PonToTexture(assets, Typed("static_texture", data)) ==
        (if r.Ok? then Ok(Image(r.value)) else Err(r.error))
  {
  }
}
