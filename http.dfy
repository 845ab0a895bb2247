/** The parts of Symfony's HTTP objects the core touches: request headers
    (`HeaderBag`, case-insensitive names, several values per name), and
    JSON responses with a status, headers that `set` replaces, and a body. */
module Http {
  import opened Wrappers

  /** A JSON value as the core's response bodies use them. */
  datatype Json = JString(text: string) | JInt(number: int) | JStrings(items: seq<string>)

  /** `HeaderBag`'s key normalisation: ASCII upper case to lower case and
      `_` to `-`. */
  function NormalizeName(name: string): (r: string)
    ensures |r| == |name|
    ensures forall k :: 0 <= k < |r| ==> !('A' <= r[k] <= 'Z') && r[k] != '_'
    ensures forall k :: 0 <= k < |r| ==> (r[k] == name[k] || 'A' <= name[k] <= 'Z' || name[k] == '_')
    ensures forall k :: 0 <= k < |r| && 'A' <= name[k] <= 'Z' ==> r[k] as int == name[k] as int + 32
    ensures forall k :: 0 <= k < |r| && name[k] == '_' ==> r[k] == '-'
  {
    seq(|name|, k requires 0 <= k < |name| => NormalizeChar(name[k]))
  }

  function NormalizeChar(c: char): char {
    if 'A' <= c <= 'Z' then (c as int - 'A' as int + 'a' as int) as char
    else if c == '_' then '-'
    else c
  }

  /** Request headers, keyed by normalised name. */
  datatype HeaderBag = HeaderBag(values: map<string, seq<string>>) {

    /** `$headers->has($name)`: the header was sent, whatever its value. */
    predicate Has(name: string) {
      NormalizeName(name) in values
    }

    /** `$headers->get($name)`: the first value, or null when the header is
        absent or carries no value. */
    function Get(name: string): (r: Option<string>)
      ensures r.Some? <==> Has(name) && values[NormalizeName(name)] != []
      ensures r.Some? ==> r.value == values[NormalizeName(name)][0]
    {
      var key := NormalizeName(name);
      if key in values && values[key] != [] then Some(values[key][0]) else None
    }
  }

  /** Normalising a name that is already normalised changes nothing, so a
      bag keyed by normalised names is found again by those keys. */
  lemma NormalizeIdempotent(name: string)
    ensures NormalizeName(NormalizeName(name)) == NormalizeName(name)
  {
  }

  class Response {
    var status: int
    var headers: map<string, string>
    var body: map<string, Json>

    /** `new JsonResponse($body, $status)` */
    constructor (status: int, body: map<string, Json>)
      ensures this.status == status && this.body == body && headers == map[]
    {
      this.status, this.body, headers := status, body, map[];
    }

    /** `$response->headers->set($name, $value)`: replaces any earlier value. */
    method SetHeader(name: string, value: string)
      modifies this`headers
      ensures headers == old(headers)[name := value]
    {
      headers := headers[name := value];
    }
  }
}
