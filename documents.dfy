/**
 * The email document as the editor stores it: a JSON object whose top-level
 * keys (`body`, ...) are merged shallowly, plus the uninterpreted codecs the
 * editor calls (JSON, percent-encoding and base64).
 */
module Documents {
  import opened Wrappers

  /** A JSON value. Numbers are reals: NaN and -0 are not modelled. */
  datatype Json =
    | Null
    | Bool(b: bool)
    | Number(n: real)
    | Str(s: string)
    | Arr(items: seq<Json>)
    | Obj(fields: map<string, Json>)

  /** A document (`TEditorConfiguration`): the top-level object of the design. */
  type Doc = map<string, Json>

  /** JavaScript truthiness of a present value: `false`, `0`, `''` and `null` are falsy. */
  predicate Truthy(v: Json)
  {
    match v
    case Null => false
    case Bool(b) => b
    case Number(n) => n != 0.0
    case Str(s) => s != ""
    case Arr(_) => true
    case Obj(_) => true
  }

  /** The canonical empty design `{ body: { rows: [] } }` installed by `clearDesign`. */
  function EmptyDesign(): (d: Doc)
    ensures "body" in d && Truthy(d["body"])
  {
    map["body" := Obj(map["rows" := Arr([])])]
  }

  /**
   * The object spread `{ ...original, ...patch }`: every key of `patch` takes
   * `patch`'s value, every other key of `original` keeps its own.
   */
  function ShallowMerge(original: Doc, patch: Doc): (r: Doc)
    ensures r.Keys == original.Keys + patch.Keys
    ensures forall k | k in patch :: r[k] == patch[k]
    ensures forall k | k in original && k !in patch :: r[k] == original[k]
  {
    original + patch
  }

  /**
   * The host functions the editor calls, left uninterpreted.
   * `parse` is `JSON.parse` (None when it throws), `stringify` is
   * `JSON.stringify`, `encode` is `btoa(encodeURIComponent(s))` and `decode`
   * is `decodeURIComponent(atob(s))` (None when either step throws).
   */
  datatype Codec = Codec(
    parse: string -> Option<Doc>,
    stringify: Doc -> string,
    encode: string -> Option<string>,
    decode: string -> Option<string>)

  /** The fragment encoding is undone by the fragment decoding. */
  ghost predicate DecodeUndoesEncode(codec: Codec, s: string)
  {
    codec.encode(s).Some? ==> codec.decode(codec.encode(s).value) == Some(s)
  }

  /** Serialising a document and parsing it back yields the document. */
  ghost predicate ParseUndoesStringify(codec: Codec, d: Doc)
  {
    codec.parse(codec.stringify(d)) == Some(d)
  }
}
