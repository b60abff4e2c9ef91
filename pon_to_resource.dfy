/** The resource compiler: it interprets a `Typed` descriptor, by its tag, into
    a CPU-side resource (a mesh, a texture or a pair of shader sources). */
module PonToResource {
  import opened Descriptor

  /** One vertex attribute: its name and its number of components. */
  datatype AttributeSpec = AttributeSpec(name: string, count: nat)

  type Layout = seq<AttributeSpec>

  /** Vertex floats are kept as raw 32-bit words; indices are `u32`. */
  datatype Mesh = Mesh(layout: Layout, vertexData: seq<Word>, elementData: seq<Word>)

  /** The procedural grid that the mesh library turns into a mesh. */
  datatype Grid = Grid(layout: Layout, nVerticesWidth: Word, nVerticesHeight: Word)

  /** What the compiler uses of the external mesh library: its standard
      position/texcoord/normal layout and its grid generator. */
  datatype MeshLibrary = MeshLibrary(positionTexcoordNormal: Layout, gridToMesh: Grid -> Mesh)

  datatype RgbaImage = RgbaImage(width: Word, height: Word, bytes: seq<Byte>)

  datatype Texture =
    | Image(image: RgbaImage)
    | Floats(width: Word, height: Word, data: seq<Word>)

  datatype ShaderSource = ShaderSource(
    vertexSrc: string,
    vertexDebugSourceName: string,
    fragmentSrc: string,
    fragmentDebugSourceName: string)

  /** The outcome of the external image decoder. */
  datatype Decoded = Decoded(image: RgbaImage) | DecodeFailed(cause: string)

  /** The file system and the descriptor printer, as the compiler sees them.
      Every path is the file name given in the descriptor, resolved by the
      collaborator against the fixed root path. */
  datatype Assets = Assets(
    readText: string -> string,     // the whole file as text
    readBytes: string -> seq<Byte>, // the whole file as bytes
    openImage: string -> Decoded,   // decode an image file, converted to RGBA
    debugName: Pon -> string)       // the textual rendering of a descriptor

  // ---------------------------------------------------------------------
  // Vertex layouts

  /** The outcome of one iteration of the layout loop. `EntryPanic` is an
      index out of bounds on an entry with fewer than two elements. */
  datatype EntryStep = EntryOk(spec: AttributeSpec) | EntryErr(error: TranslateErr) | EntryPanic

  /** One layout entry `[name, count]`, translated left to right. */
  function EntryOf(p: Pon): EntryStep
  {
    match AsArray(p)
    case Err(e) => EntryErr(e)
    case Ok(q) =>
      if |q| == 0 then EntryPanic
      else
        match AsString(q[0])
        case Err(e) => EntryErr(e)
        case Ok(name) =>
          if |q| < 2 then EntryPanic
          else
            match AsInteger(q[1])
            case Err(e) => EntryErr(e)
            case Ok(n) => EntryOk(AttributeSpec(name, Usize(n)))
  }

  /** The layout loop reaches no short entry before it stops. */
  predicate LayoutPanicFree(es: seq<Pon>)
  {
    |es| == 0 ||
    match EntryOf(es[0])
    case EntryOk(_) => LayoutPanicFree(es[1..])
    case EntryErr(_) => true
    case EntryPanic => false
  }

  /** The translated layout: one attribute per entry, or the first entry's error. */
  function LayoutOf(es: seq<Pon>): Result<Layout>
    requires LayoutPanicFree(es)
  {
    if |es| == 0 then Ok([])
    else
      match EntryOf(es[0])
      case EntryOk(a) => Prefixed([a], LayoutOf(es[1..]))
      case EntryErr(e) => Err(e)
  }

  function Prefixed(front: Layout, r: Result<Layout>): Result<Layout>
  {
    match r
    case Ok(rest) => Ok(front + rest)
    case Err(e) => Err(e)
  }

  /** A well-formed layout entry: an array whose first two elements are a
      string and an integer. */
  predicate IsPair(p: Pon)
  {
    p.Array? && |p.elems| >= 2 && p.elems[0].String? && p.elems[1].Integer?
  }

  /** The attribute a well-formed entry stands for. */
  function PairSpec(p: Pon): AttributeSpec
    requires IsPair(p)
  {
    AttributeSpec(p.elems[0].s, Usize(p.elems[1].i))
  }

  lemma EntryOfPair(p: Pon)
    ensures EntryOf(p).EntryOk? <==> IsPair(p)
    ensures IsPair(p) ==> EntryOf(p).spec == PairSpec(p)
  {
  }

  /** A layout translates exactly when every entry is a well-formed pair; it
      then has one attribute per entry, in input order. Otherwise the error is
      that of the first malformed entry. */
  lemma {:induction false} LayoutOfCorrect(es: seq<Pon>)
    requires LayoutPanicFree(es)
    ensures LayoutOf(es).Ok? <==> forall i :: 0 <= i < |es| ==> IsPair(es[i])
    ensures LayoutOf(es).Ok? ==>
      |LayoutOf(es).value| == |es| &&
      forall i :: 0 <= i < |es| ==> LayoutOf(es).value[i] == PairSpec(es[i])
    ensures LayoutOf(es).Err? ==>
      exists k :: 0 <= k < |es| && (forall j :: 0 <= j < k ==> IsPair(es[j])) &&
        EntryOf(es[k]) == EntryErr(LayoutOf(es).error)
  {
    if |es| > 0 {
      EntryOfPair(es[0]);
      if EntryOf(es[0]).EntryOk? {
        LayoutOfCorrect(es[1..]);
        if LayoutOf(es).Err? {
          var k :| 0 <= k < |es| - 1 && (forall j :: 0 <= j < k ==> IsPair(es[1..][j])) &&
            EntryOf(es[1..][k]) == EntryErr(LayoutOf(es[1..]).error);
          assert forall j :: 0 <= j < k + 1 ==> IsPair(es[j]) by {
            forall j | 0 <= j < k + 1 ensures IsPair(es[j]) {
              if j > 0 { assert es[j] == es[1..][j - 1]; }
            }
          }
          assert EntryOf(es[k + 1]) == EntryErr(LayoutOf(es).error);
        } else {
          forall i | 0 <= i < |es| ensures IsPair(es[i]) {
            if i > 0 { assert es[i] == es[1..][i - 1]; }
          }
        }
        if (forall i :: 0 <= i < |es| ==> IsPair(es[i])) {
          assert forall i :: 0 <= i < |es| - 1 ==> IsPair(es[1..][i]) by {
            forall i | 0 <= i < |es| - 1 ensures IsPair(es[1..][i]) {
              assert es[1..][i] == es[i + 1];
            }
          }
        }
      } else {
        assert !IsPair(es[0]);
      }
    }
  }

  /** The layout loop stops at the first malformed entry, with that entry's
      error; in particular an entry that is not an array is reported as a type
      mismatch naming its kind. */
  lemma {:induction false} LayoutStopsAtFirstError(es: seq<Pon>, k: nat)
    requires k < |es| && EntryOf(es[k]).EntryErr?
    requires forall j :: 0 <= j < k ==> IsPair(es[j])
    requires LayoutPanicFree(es)
    ensures LayoutOf(es) == Err(EntryOf(es[k]).error)
    ensures !es[k].Array? ==> LayoutOf(es) == Err(MismatchType("array", KindName(es[k])))
  {
    if k > 0 {
      EntryOfPair(es[0]);
      assert es[1..][k - 1] == es[k];
      forall j | 0 <= j < k - 1 ensures IsPair(es[1..][j]) {
        assert es[1..][j] == es[j + 1];
      }
      LayoutStopsAtFirstError(es[1..], k - 1);
    }
  }

  /** The layout loop: translate each entry and append it, stopping at the
      first error. */
  method BuildLayout(es: seq<Pon>) returns (r: Result<Layout>)
    requires LayoutPanicFree(es)
    ensures r == LayoutOf(es)
  {
    var layout: Layout := [];
    var i := 0;
    assert es[0..] == es;
    match LayoutOf(es) {
      case Ok(rest) => assert [] + rest == rest;
      case Err(_) =>
    }
    while i < |es|
      invariant 0 <= i <= |es|
      invariant LayoutPanicFree(es[i..])
      invariant LayoutOf(es) == Prefixed(layout, LayoutOf(es[i..]))
    {
      var step := EntryOf(es[i]);
      assert es[i..][0] == es[i];
      assert es[i..][1..] == es[i + 1..];
      if step.EntryErr? {
        assert LayoutOf(es[i..]) == Err(step.error);
        return Err(step.error);
      }
      match LayoutOf(es[i + 1..]) {
        case Ok(rest) => assert layout + ([step.spec] + rest) == (layout + [step.spec]) + rest;
        case Err(_) =>
      }
      layout := layout + [step.spec];
      i := i + 1;
    }
    assert es[i..] == [];
    assert layout + [] == layout;
    r := Ok(layout);
  }

  // ---------------------------------------------------------------------
  // Meshes

  /** The layout loop of a `static_mesh` or `grid_mesh` does not panic. */
  predicate MeshPanicFree(node: Pon)
  {
    node.Typed? && (node.typeName == "static_mesh" || node.typeName == "grid_mesh") &&
    FieldAsArray(node.data, "layout").Ok? ==>
      LayoutPanicFree(FieldAsArray(node.data, "layout").value)
  }

  function StaticMesh(data: Pon): Result<Mesh>
    requires FieldAsArray(data, "layout").Ok? ==> LayoutPanicFree(FieldAsArray(data, "layout").value)
  {
    var es :- FieldAsArray(data, "layout");
    var layout :- LayoutOf(es);
    var vertices :- FieldAsFloatArray(data, "vertices");
    var indices :- FieldAsIntegerArray(data, "indices");
    Ok(Mesh(layout, vertices, seq(|indices|, k requires 0 <= k < |indices| => U32(indices[k]))))
  }

  function GridMesh(lib: MeshLibrary, data: Pon): Result<Mesh>
    requires FieldAsArray(data, "layout").Ok? ==> LayoutPanicFree(FieldAsArray(data, "layout").value)
  {
    var layout :-
      match FieldAsArray(data, "layout")
      case Ok(es) => LayoutOf(es)
      case Err(_) => Ok(lib.positionTexcoordNormal);
    var w :- FieldAsInteger(data, "n_vertices_width");
    var h :- FieldAsInteger(data, "n_vertices_height");
    Ok(lib.gridToMesh(Grid(layout, U32(w), U32(h))))
  }

  /** `pon_to_mesh`: dispatch on the tag of a typed descriptor. */
  function PonToMesh(lib: MeshLibrary, node: Pon): (r: Result<Mesh>)
    requires MeshPanicFree(node)
    ensures !node.Typed? ==> r == Err(MismatchType("typed", KindName(node)))
    ensures node.Typed? && node.typeName != "static_mesh" && node.typeName != "grid_mesh" ==>
      r == Err(UnrecognizedType(node.typeName))
  {
    var t :- AsTyped(node);
    if t.typeName == "static_mesh" then StaticMesh(t.data)
    else if t.typeName == "grid_mesh" then GridMesh(lib, t.data)
    else Err(UnrecognizedType(t.typeName))
  }

  /** The fields a `static_mesh` needs, each present and of the right kind. */
  predicate StaticMeshFieldsOk(data: Pon)
  {
    HasField(data, "layout") && data.fields["layout"].Array? &&
    (forall i :: 0 <= i < |data.fields["layout"].elems| ==> IsPair(data.fields["layout"].elems[i])) &&
    HasField(data, "vertices") && data.fields["vertices"].Array? && AllFloats(data.fields["vertices"].elems) &&
    HasField(data, "indices") && data.fields["indices"].Array? && AllIntegers(data.fields["indices"].elems)
  }

  /** A `static_mesh` compiles exactly when its three fields are well formed;
      the mesh then has one attribute per layout entry, the vertex data is the
      `vertices` field exactly, and element `i` is `indices[i]` as a `u32`. */
  lemma StaticMeshCorrect(lib: MeshLibrary, data: Pon)
    requires MeshPanicFree(Typed("static_mesh", data))
    ensures PonToMesh(lib, Typed("static_mesh", data)).Ok? <==> StaticMeshFieldsOk(data)
    ensures PonToMesh(lib, Typed("static_mesh", data)).Ok? ==>
      var m := PonToMesh(lib, Typed("static_mesh", data)).value;
      var es := data.fields["layout"].elems;
      var vs := data.fields["vertices"].elems;
      var ixs := data.fields["indices"].elems;
      && |m.layout| == |es| && (forall i :: 0 <= i < |es| ==> m.layout[i] == PairSpec(es[i]))
      && |m.vertexData| == |vs| && (forall i :: 0 <= i < |vs| ==> m.vertexData[i] == vs[i].bits)
      && |m.elementData| == |ixs| && (forall i :: 0 <= i < |ixs| ==> m.elementData[i] == ixs[i].i % 0x1_0000_0000)
  {
    if FieldAsArray(data, "layout").Ok? {
      LayoutOfCorrect(FieldAsArray(data, "layout").value);
    }
  }

  /** A missing `static_mesh` field is reported by name, in the order
      `layout`, `vertices`, `indices`; a present one of the wrong kind is a
      type mismatch. */
  lemma StaticMeshFieldErrors(lib: MeshLibrary, data: Pon)
    requires data.Object?
    requires MeshPanicFree(Typed("static_mesh", data))
    ensures !HasField(data, "layout") ==>
      PonToMesh(lib, Typed("static_mesh", data)) == Err(NoSuchField("layout"))
    ensures HasField(data, "layout") && !data.fields["layout"].Array? ==>
      PonToMesh(lib, Typed("static_mesh", data)) == Err(MismatchType("array", KindName(data.fields["layout"])))
    ensures HasField(data, "layout") && data.fields["layout"].Array? &&
            LayoutOf(data.fields["layout"].elems).Ok? && !HasField(data, "vertices") ==>
      PonToMesh(lib, Typed("static_mesh", data)) == Err(NoSuchField("vertices"))
    ensures HasField(data, "layout") && data.fields["layout"].Array? &&
            LayoutOf(data.fields["layout"].elems).Ok? && HasField(data, "vertices") &&
            data.fields["vertices"].Array? && AllFloats(data.fields["vertices"].elems) &&
            !HasField(data, "indices") ==>
      PonToMesh(lib, Typed("static_mesh", data)) == Err(NoSuchField("indices"))
  {
  }

  /** `grid_mesh`: a missing or non-array `layout` falls back to the standard
      layout; an array layout must translate; both vertex counts are required
      and are narrowed to `u32`. */
  lemma GridMeshCorrect(lib: MeshLibrary, data: Pon)
    requires MeshPanicFree(Typed("grid_mesh", data))
    ensures var r := PonToMesh(lib, Typed("grid_mesh", data));
      && (data.Object? && !(HasField(data, "layout") && data.fields["layout"].Array?) &&
          HasField(data, "n_vertices_width") && data.fields["n_vertices_width"].Integer? &&
          HasField(data, "n_vertices_height") && data.fields["n_vertices_height"].Integer? ==>
            r == Ok(lib.gridToMesh(Grid(lib.positionTexcoordNormal,
                                        data.fields["n_vertices_width"].i % 0x1_0000_0000,
                                        data.fields["n_vertices_height"].i % 0x1_0000_0000))))
      && (data.Object? && HasField(data, "layout") && data.fields["layout"].Array? &&
          (forall i :: 0 <= i < |data.fields["layout"].elems| ==> IsPair(data.fields["layout"].elems[i])) &&
          HasField(data, "n_vertices_width") && data.fields["n_vertices_width"].Integer? &&
          HasField(data, "n_vertices_height") && data.fields["n_vertices_height"].Integer? ==>
            LayoutOf(data.fields["layout"].elems).Ok? &&
            r == Ok(lib.gridToMesh(Grid(LayoutOf(data.fields["layout"].elems).value,
                                        data.fields["n_vertices_width"].i % 0x1_0000_0000,
                                        data.fields["n_vertices_height"].i % 0x1_0000_0000))))
      && (HasField(data, "layout") && data.fields["layout"].Array? &&
          (exists i :: 0 <= i < |data.fields["layout"].elems| && !IsPair(data.fields["layout"].elems[i])) ==>
            r.Err?)
      && (!HasField(data, "n_vertices_width") ==> r.Err?)
      && (!HasField(data, "n_vertices_height") ==> r.Err?)
      && (HasField(data, "n_vertices_width") && !data.fields["n_vertices_width"].Integer? ==> r.Err?)
      && (HasField(data, "n_vertices_height") && !data.fields["n_vertices_height"].Integer? ==> r.Err?)
  {
    if FieldAsArray(data, "layout").Ok? {
      LayoutOfCorrect(FieldAsArray(data, "layout").value);
    }
  }

  // ---------------------------------------------------------------------
  // File names

  /** The position of the last `c` in `s`, or -1. */
  function LastIndex(s: string, c: char): (k: int)
    ensures -1 <= k < |s|
    ensures k >= 0 ==> s[k] == c
    ensures forall j :: k < j < |s| ==> s[j] != c
  {
    if |s| == 0 then -1
    else if s[|s| - 1] == c then |s| - 1
    else LastIndex(s[..|s| - 1], c)
  }

  /** The last component of a path. */
  function FileName(path: string): (name: string)
    ensures '/' !in name
    ensures |name| <= |path| && name == path[|path| - |name|..]
  {
    path[LastIndex(path, '/') + 1..]
  }

  /** The extension of a path's file name: what follows its last dot, if that
      dot is not the name's first character; none for `..`. */
  function Extension(path: string): (ext: Option<string>)
    ensures ext.Some? ==> '.' !in ext.value && '/' !in ext.value
    ensures ext.Some? ==>
      var name := FileName(path);
      |name| > |ext.value| + 1 && name[|name| - |ext.value| - 1] == '.' &&
      name[|name| - |ext.value|..] == ext.value
  {
    var name := FileName(path);
    var dot := LastIndex(name, '.');
    if name == ".." || dot <= 0 then None else Some(name[dot + 1..])
  }

  /** A file name other than `..` with a dot after its first character always
      has an extension. */
  lemma ExtensionFound(path: string, i: int)
    requires 0 < i < |FileName(path)| && FileName(path)[i] == '.'
    requires FileName(path) != ".."
    ensures Extension(path).Some?
  {
    var name := FileName(path);
    var dot := LastIndex(name, '.');
    if dot < i {
      assert false;
    }
  }

  /** Unless the path is itself a bare name, its file name follows a `/`. */
  lemma FileNameAfterSeparator(path: string)
    ensures var name := FileName(path);
      |name| < |path| ==> path[|path| - |name| - 1] == '/'
  {
    var k := LastIndex(path, '/');
    assert |FileName(path)| == |path| - (k + 1);
  }

  // ---------------------------------------------------------------------
  // The .dhm height-map format

  /** The little-endian 32-bit word at byte offset `at`. */
  function LE32(b: seq<Byte>, at: nat): Word
    requires at + 4 <= |b|
  {
    b[at] as int + 0x100 * (b[at + 1] as int) + 0x1_0000 * (b[at + 2] as int) + 0x100_0000 * (b[at + 3] as int)
  }

  /** The file holds the two header words and at least `width * height` words
      after them (a shorter file makes the reader panic). */
  predicate DhmWellFormed(b: seq<Byte>)
  {
    |b| >= 8 && |b| - 8 >= 4 * (LE32(b, 0) * LE32(b, 4))
  }

  /** Reference decoding: width, height, then `width * height` words. */
  function DhmDecode(b: seq<Byte>): Texture
    requires DhmWellFormed(b)
  {
    var w := LE32(b, 0);
    var h := LE32(b, 4);
    Floats(w, h, seq(w * h, k requires 0 <= k < w * h => LE32(b, 8 + 4 * k)))
  }

  lemma RowMajorBound(y: nat, x: nat, w: nat, h: nat)
    requires y < h && x < w
    ensures y * w + x + 1 <= w * h
  {
    assert (y + 1) * w <= h * w by {
      assert y + 1 <= h;
    }
  }

  /** The decoded data is read row by row, `x` fastest: the value of column
      `x` of row `y` is the word at offset `8 + 4 * (y * width + x)`. */
  lemma DhmRowMajor(b: seq<Byte>, y: nat, x: nat)
    requires DhmWellFormed(b)
    requires y < LE32(b, 4) && x < LE32(b, 0)
    ensures var t := DhmDecode(b);
      t.width == LE32(b, 0) && t.height == LE32(b, 4) &&
      |t.data| == t.width * t.height && y * t.width + x < |t.data| &&
      t.data[y * t.width + x] == LE32(b, 8 + 4 * (y * t.width + x))
  {
    RowMajorBound(y, x, LE32(b, 0), LE32(b, 4));
  }

  /** The words read so far are the first `|data|` words after the header. */
  ghost predicate WordsRead(b: seq<Byte>, data: seq<Word>)
  {
    8 + 4 * |data| <= |b| &&
    forall k :: 0 <= k < |data| ==> data[k] == LE32(b, 8 + 4 * k)
  }

  /** The inner loop of the reader: one row of `width` words. */
  method ReadRow(b: seq<Byte>, data: seq<Word>, cursor: nat, y: nat, width: nat, height: nat)
    returns (data': seq<Word>, cursor': nat)
    requires y < height && 8 + 4 * (width * height) <= |b|
    requires |data| == y * width && cursor == 8 + 4 * |data| && WordsRead(b, data)
    ensures |data'| == (y + 1) * width && cursor' == 8 + 4 * |data'| && WordsRead(b, data')
  {
    data', cursor' := data, cursor;
    for x := 0 to width
      invariant |data'| == y * width + x
      invariant cursor' == 8 + 4 * |data'|
      invariant WordsRead(b, data')
    {
      RowMajorBound(y, x, width, height);
      data' := data' + [LE32(b, cursor')];
      cursor' := cursor' + 4;
    }
    assert y * width + width == (y + 1) * width;
  }

  /** The reader of the `.dhm` branch: two header words, then nested loops
      over rows and columns that advance a cursor one word at a time. */
  method ReadDhm(b: seq<Byte>) returns (t: Texture)
    requires DhmWellFormed(b)
    ensures t == DhmDecode(b)
  {
    var cursor := 0;
    var width := LE32(b, cursor);
    cursor := cursor + 4;
    var height := LE32(b, cursor);
    cursor := cursor + 4;
    var data: seq<Word> := [];
    for y := 0 to height
      invariant |data| == y * width
      invariant cursor == 8 + 4 * |data|
      invariant WordsRead(b, data)
    {
      data, cursor := ReadRow(b, data, cursor, y, width, height);
    }
    assert |data| == (width as int) * (height as int);
    t := Floats(width, height, data);
  }

  // ---------------------------------------------------------------------
  // Textures

  /** The RGBA image of `static_texture`: the pixels taken mod 256, after the
      `u32` size check and the image library's own length check. */
  function ImageFromPixels(pixels: seq<I64>, width: I64, height: I64): (r: Result<RgbaImage>)
    ensures r.Ok? ==>
      r.value.width == U32(width) && r.value.height == U32(height) &&
      |r.value.bytes| == |pixels| &&
      forall k :: 0 <= k < |pixels| ==> r.value.bytes[k] == pixels[k] % 256
    ensures |pixels| < 0x1_0000_0000 ==>
      (r.Ok? <==> U32(width) * U32(height) * 4 == |pixels|)
    ensures U32(width) * U32(height) * 4 < 0x1_0000_0000 && |pixels| < 0x1_0000_0000 &&
            U32(width) * U32(height) * 4 != |pixels| ==>
      r == Err(PixelCountMismatch(U32(width) * U32(height) * 4, |pixels|))
  {
    var bytes := seq(|pixels|, k requires 0 <= k < |pixels| => U8(pixels[k]));
    var w := U32(width);
    var h := U32(height);
    WrappedSizeCheck(w * h * 4, |bytes|);
    if U32(w * h * 4) != U32(|bytes|) then Err(PixelCountMismatch(U32(w * h * 4), |bytes|))
    else if |bytes| < w * h * 4 then Err(ImageCreateFailed)
    else Ok(RgbaImage(w, h, bytes))
  }

  /** The `u32` comparison of two sizes, followed by the image library's
      length check, accepts exactly equal sizes when the length fits in 32 bits. */
  lemma WrappedSizeCheck(size: nat, len: nat)
    ensures len < 0x1_0000_0000 ==> ((U32(size) == U32(len) && len >= size) <==> size == len)
    ensures size < 0x1_0000_0000 ==> U32(size) == size
  {
  }

  function StaticTexture(data: Pon): Result<Texture>
  {
    var pixels :- FieldAsIntegerArray(data, "pixels");
    var width :- FieldAsInteger(data, "width");
    var height :- FieldAsInteger(data, "height");
    var image :- ImageFromPixels(pixels, width, height);
    Ok(Image(image))
  }

  /** What `texture_from_file` demands of its file so that it does not panic:
      the file name has an extension and a `.dhm` file is long enough. */
  predicate FileTexturePanicFree(assets: Assets, data: Pon)
  {
    data.String? ==>
      Extension(data.s).Some? &&
      (Extension(data.s) == Some("dhm") ==> DhmWellFormed(assets.readBytes(data.s)))
  }

  function TextureFromFile(assets: Assets, data: Pon): Result<Texture>
    requires FileTexturePanicFree(assets, data)
  {
    var filename :- AsString(data);
    if Extension(filename) == Some("dhm") then Ok(DhmDecode(assets.readBytes(filename)))
    else
      match assets.openImage(filename)
      case Decoded(image) => Ok(Image(image))
      case DecodeFailed(cause) => Err(ImageLoadFailed(filename, cause))
  }

  predicate TexturePanicFree(assets: Assets, node: Pon)
  {
    node.Typed? && node.typeName == "texture_from_file" ==> FileTexturePanicFree(assets, node.data)
  }

  /** `pon_to_texture`: dispatch on the tag of a typed descriptor. */
  function PonToTexture(assets: Assets, node: Pon): (r: Result<Texture>)
    requires TexturePanicFree(assets, node)
    ensures !node.Typed? ==> r == Err(MismatchType("typed", KindName(node)))
    ensures node.Typed? && node.typeName != "static_texture" && node.typeName != "texture_from_file" ==>
      r == Err(UnrecognizedType(node.typeName))
    ensures node.Typed? && node.typeName == "texture_from_file" ==>
      if !node.data.String? then r == Err(MismatchType("string", KindName(node.data)))
      else if Extension(node.data.s) == Some("dhm") then r == Ok(DhmDecode(assets.readBytes(node.data.s)))
      else
        match assets.openImage(node.data.s)
        case Decoded(image) => r == Ok(Image(image))
        case DecodeFailed(cause) => r == Err(ImageLoadFailed(node.data.s, cause))
  {
    var t :- AsTyped(node);
    if t.typeName == "static_texture" then StaticTexture(t.data)
    else if t.typeName == "texture_from_file" then TextureFromFile(assets, t.data)
    else Err(UnrecognizedType(t.typeName))
  }

  /** The fields a `static_texture` needs, each present and of the right kind. */
  predicate StaticTextureFieldsOk(data: Pon)
  {
    HasField(data, "pixels") && data.fields["pixels"].Array? && AllIntegers(data.fields["pixels"].elems) &&
    HasField(data, "width") && data.fields["width"].Integer? &&
    HasField(data, "height") && data.fields["height"].Integer?
  }

  /** `static_texture` succeeds only when `width * height * 4` equals the
      number of pixel values (for fewer than 2^32 values); the image then has
      that width and height and its bytes are the pixels mod 256. On a
      mismatch the error reports both numbers. */
  lemma StaticTextureCorrect(assets: Assets, data: Pon)
    requires StaticTextureFieldsOk(data) && |data.fields["pixels"].elems| < 0x1_0000_0000
    ensures var r := PonToTexture(assets, Typed("static_texture", data));
      var ps := data.fields["pixels"].elems;
      var w := data.fields["width"].i % 0x1_0000_0000;
      var h := data.fields["height"].i % 0x1_0000_0000;
      && (r.Ok? <==> w * h * 4 == |ps|)
      && (r.Ok? ==>
            r.value.Image? && r.value.image.width == w && r.value.image.height == h &&
            |r.value.image.bytes| == |ps| &&
            forall k :: 0 <= k < |ps| ==> r.value.image.bytes[k] == ps[k].i % 256)
      && (w * h * 4 < 0x1_0000_0000 && w * h * 4 != |ps| ==> r == Err(PixelCountMismatch(w * h * 4, |ps|)))
  {
  }

  /** Without `pixels`, `width` or `height`, `static_texture` fails naming the
      first missing field, in that order. */
  lemma StaticTextureMissingField(assets: Assets, data: Pon)
    requires data.Object?
    ensures !HasField(data, "pixels") ==>
      PonToTexture(assets, Typed("static_texture", data)) == Err(NoSuchField("pixels"))
    ensures HasField(data, "pixels") && data.fields["pixels"].Array? && AllIntegers(data.fields["pixels"].elems) &&
            !HasField(data, "width") ==>
      PonToTexture(assets, Typed("static_texture", data)) == Err(NoSuchField("width"))
    ensures HasField(data, "pixels") && data.fields["pixels"].Array? && AllIntegers(data.fields["pixels"].elems) &&
            HasField(data, "width") && data.fields["width"].Integer? && !HasField(data, "height") ==>
      PonToTexture(assets, Typed("static_texture", data)) == Err(NoSuchField("height"))
  {
  }

  // ---------------------------------------------------------------------
  // Shaders

  /** One shader stage: its string argument first, then its tag. */
  function StageSource(assets: Assets, stage: Pon): Result<string>
    requires stage.Typed?
  {
    var arg :- AsString(stage.data);
    if stage.typeName == "shader_from_file" then Ok(assets.readText(arg))
    else if stage.typeName == "static_shader" then Ok(arg)
    else Err(UnrecognizedType(stage.typeName))
  }

  /** `pon_to_shader`: a `shader_program` with a `vertex` and a `fragment`
      stage, the vertex stage validated first. */
  function PonToShader(assets: Assets, node: Pon): (r: Result<ShaderSource>)
    ensures !node.Typed? ==> r == Err(MismatchType("typed", KindName(node)))
    ensures node.Typed? && node.typeName != "shader_program" ==> r == Err(UnrecognizedType(node.typeName))
    ensures r.Ok? ==>
      && node.Typed? && HasField(node.data, "vertex") && HasField(node.data, "fragment")
      && r.value.vertexDebugSourceName == assets.debugName(node.data.fields["vertex"])
      && r.value.fragmentDebugSourceName == assets.debugName(node.data.fields["fragment"])
  {
    var t :- AsTyped(node);
    if t.typeName == "shader_program" then
      var vertex :- FieldAsTyped(t.data, "vertex");
      var fragment :- FieldAsTyped(t.data, "fragment");
      var vertexSrc :- StageSource(assets, vertex);
      var fragmentSrc :- StageSource(assets, fragment);
      Ok(ShaderSource(vertexSrc, assets.debugName(vertex), fragmentSrc, assets.debugName(fragment)))
    else
      Err(UnrecognizedType(t.typeName))
  }

  /** A stage that `StageSource` accepts: a `static_shader` or a
      `shader_from_file` of a string. */
  predicate StageWellFormed(stage: Pon)
  {
    stage.Typed? && stage.data.String? &&
    (stage.typeName == "static_shader" || stage.typeName == "shader_from_file")
  }

  /** A `shader_program` compiles exactly when both stages are well formed;
      a `static_shader` stage yields its inline string exactly, a
      `shader_from_file` stage the text of the file it names. */
  lemma ShaderProgramCorrect(assets: Assets, data: Pon)
    ensures var r := PonToShader(assets, Typed("shader_program", data));
      && (r.Ok? <==>
            HasField(data, "vertex") && HasField(data, "fragment") &&
            StageWellFormed(data.fields["vertex"]) && StageWellFormed(data.fields["fragment"]))
      && (r.Ok? ==>
            var vertex := data.fields["vertex"];
            var fragment := data.fields["fragment"];
            && r.value.vertexSrc ==
                 (if vertex.typeName == "static_shader" then vertex.data.s else assets.readText(vertex.data.s))
            && r.value.fragmentSrc ==
                 (if fragment.typeName == "static_shader" then fragment.data.s else assets.readText(fragment.data.s)))
  {
  }

  /** A stage whose tag is neither `shader_from_file` nor `static_shader`
      fails with that tag. The vertex stage is checked first, so a bad vertex
      stage decides the error whatever the fragment stage is. */
  lemma ShaderStageErrors(assets: Assets, data: Pon)
    requires HasField(data, "vertex") && HasField(data, "fragment")
    requires data.fields["vertex"].Typed? && data.fields["fragment"].Typed?
    ensures var vertex := data.fields["vertex"];
      var fragment := data.fields["fragment"];
      var r := PonToShader(assets, Typed("shader_program", data));
      && (vertex.data.String? && vertex.typeName != "shader_from_file" && vertex.typeName != "static_shader" ==>
            r == Err(UnrecognizedType(vertex.typeName)))
      && (StageSource(assets, vertex).Ok? && fragment.data.String? &&
          fragment.typeName != "shader_from_file" && fragment.typeName != "static_shader" ==>
            r == Err(UnrecognizedType(fragment.typeName)))
  {
  }
}
