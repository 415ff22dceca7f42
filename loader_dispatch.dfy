/** `VrmLoader::load` of `crates/bevy_vrm/src/loader.rs`: read the whole
    asset, send it to the binary (GLB) glTF loader when it starts with the
    GLB magic and to the JSON glTF loader otherwise, and wrap the glTF in a
    `Vrm`. The byte source and both glTF loaders are parameters. */
module VrmAssetLoader {
  import opened Wrappers

  newtype byte = x: int | 0 <= x < 256

  /** The first four bytes of a GLB file: ASCII `glTF`. */
  const GLB_MAGIC: seq<byte> := [0x67, 0x6C, 0x54, 0x46]

  /** The GLB header's `magic` field as a little-endian `uint32`, as
      section 4.4 ("Header") of the glTF 2.0 specification defines it. */
  const GLB_MAGIC_U32: nat := 0x46546C67

  /** `bytes.len() >= 4 && &bytes[0..4] == b"glTF"`. */
  function IsGlb(bytes: seq<byte>): bool {
    |bytes| >= 4 && bytes[..4] == GLB_MAGIC
  }

  function U32Le(b: seq<byte>): nat
    requires |b| == 4
  {
    b[0] as nat + 0x100 * b[1] as nat + 0x1_0000 * b[2] as nat + 0x100_0000 * b[3] as nat
  }

  /** The test is the GLB header check: at least four bytes whose
      little-endian value is the magic number. */
  lemma IsGlbIsHeaderMagic(bytes: seq<byte>)
    ensures IsGlb(bytes) <==> |bytes| >= 4 && U32Le(bytes[..4]) == GLB_MAGIC_U32
  {
    if |bytes| >= 4 && U32Le(bytes[..4]) == GLB_MAGIC_U32 {
      var h := bytes[..4];
      assert h[3] == 0x46;
      assert h[2] == 0x54;
      assert h[1] == 0x6C;
      assert h[0] == 0x67;
      assert h == GLB_MAGIC;
    }
  }

  /** Every input that starts with the magic is GLB, whatever follows;
      inputs shorter than four bytes never are. */
  lemma GlbPrefix(rest: seq<byte>, short: seq<byte>)
    ensures IsGlb(GLB_MAGIC + rest)
    ensures |short| < 4 ==> !IsGlb(short)
  {
    assert (GLB_MAGIC + rest)[..4] == GLB_MAGIC;
  }

  /** A read failure; its cause is opaque here. */
  datatype IoError = IoError(kind: nat)

  /** `GltfError`: an I/O failure, or any failure of the glTF loaders
      (opaque here). */
  datatype GltfError = Io(cause: IoError) | LoaderError(code: nat)

  /** `VrmError`: its only variant wraps a `GltfError` (`#[from]`). */
  datatype VrmError = Gltf(inner: GltfError)

  datatype Vrm<G> = Vrm(gltf: G)

  /** The loader chosen for the bytes read. */
  function Chosen<G>(bytes: seq<byte>, glb: seq<byte> -> Result<G, GltfError>,
                     gltf: seq<byte> -> Result<G, GltfError>): seq<byte> -> Result<G, GltfError> {
    if IsGlb(bytes) then glb else gltf
  }

  /** `VrmLoader::load`, given the outcome of `read_to_end`. */
  function Load<G>(read: Result<seq<byte>, IoError>, glb: seq<byte> -> Result<G, GltfError>,
                   gltf: seq<byte> -> Result<G, GltfError>): Result<Vrm<G>, VrmError> {
    match read
    case Err(e) => Err(Gltf(Io(e)))
    case Ok(bytes) =>
      var loaded := if IsGlb(bytes) then glb(bytes) else gltf(bytes);
      match loaded
      case Err(e) => Err(Gltf(e))
      case Ok(g) => Ok(Vrm(g))
  }

  /** A failed read is an I/O error; otherwise the chosen loader gets the
      whole input unchanged, its glTF becomes the `Vrm`'s and its error is
      wrapped; the loader not chosen is never consulted. */
  lemma LoadSpec<G>(read: Result<seq<byte>, IoError>, glb: seq<byte> -> Result<G, GltfError>,
                    gltf: seq<byte> -> Result<G, GltfError>, other: seq<byte> -> Result<G, GltfError>)
    ensures read.Err? ==> Load(read, glb, gltf) == Err(Gltf(Io(read.error)))
    ensures read.Ok? ==>
              var out := Chosen(read.value, glb, gltf)(read.value);
              (Load(read, glb, gltf).Ok? <==> out.Ok?) &&
              (out.Ok? ==> Load(read, glb, gltf).value.gltf == out.value) &&
              (out.Err? ==> Load(read, glb, gltf).error == Gltf(out.error))
    ensures read.Ok? && IsGlb(read.value) ==> Load(read, glb, gltf) == Load(read, glb, other)
    ensures read.Ok? && !IsGlb(read.value) ==> Load(read, glb, gltf) == Load(read, other, gltf)
  {
  }
}
