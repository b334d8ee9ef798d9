// The library code the pipeline calls and this project does not look into: every
// theorem holds for all such functions.
module Libraries {
  import opened Options
  import opened Bytes
  import opened JsonValues

  datatype Library = Library(
    // hashlib.sha256(..).digest()
    sha256: bytes -> Digest,
    // json.loads; None when it raises
    loads: bytes -> Option<Json>,
    // json.dumps(.., indent=2).encode() + b'\n'
    dumps: Json -> bytes,
    // valid UTF-8 without a repeated key or a non-finite number
    strict: bytes -> bool,
    // str.encode('utf-8'); None for lone surrogates
    utf8: string -> Option<bytes>,
    // base64.b64decode(.., validate=True) and b64encode
    fromBase64: string -> Option<bytes>,
    toBase64: bytes -> string,
    // str(uuid.UUID(s)) == s
    canonicalUuid: string -> bool)

  // request.py's strict_json: bounded, and nothing that two JSON readers could
  // understand differently.
  function StrictJson(lib: Library, raw: bytes, limit: nat): Option<Json> {
    if 0 < |raw| <= limit && lib.strict(raw) then lib.loads(raw) else None
  }

  function HexSha(lib: Library, raw: bytes): string {
    Hex(lib.sha256(raw))
  }
}
