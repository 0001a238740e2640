/** The request conventions every route follows when it calls the
    BigBlueButton server: configuration, query-string serialisation, the
    checksum over `action ++ query ++ secret`, and the URL
    `base/api/<action>?<query>&checksum=<hex>`.

    SHA-256 (`crypto.createHash('sha256')…digest('hex')`) and the two
    percent-encoders (`encodeURIComponent`, and the form-urlencoded
    serializer behind `URLSearchParams.toString`) are passed in as functions:
    only the strings fed to them are modelled. */
module BbbApi {
  import opened Wrappers
  import opened Text

  /** `NEXT_PUBLIC_BBB_URL` and `NEXT_PUBLIC_BBB_SECRET`; `None` is `undefined`. */
  datatype Config = Config(baseUrl: Option<string>, secret: Option<string>)

  /** JavaScript truthiness of an optional string: defined and non-empty. */
  predicate Truthy(o: Option<string>) {
    o.Some? && o.value != ""
  }

  /** The base URL and secret when both are truthy (`!bbbUrl || !bbbSecret`
      is the configuration error). */
  function Credentials(cfg: Config): (r: Option<(string, string)>)
    ensures r.Some? <==> Truthy(cfg.baseUrl) && Truthy(cfg.secret)
    ensures r.Some? ==> r.value.0 == cfg.baseUrl.value && r.value.1 == cfg.secret.value
    ensures r.Some? ==> r.value.0 != "" && r.value.1 != ""
  {
    if Truthy(cfg.baseUrl) && Truthy(cfg.secret) then Some((cfg.baseUrl.value, cfg.secret.value))
    else None
  }

  /** A handler's early error answer: the HTTP status and the `error` text. */
  datatype HttpError = HttpError(status: nat, error: string)

  const ConfigMissing: string := "BigBlueButton configuration missing"
  const MeetingIdRequired: string := "Meeting ID is required"

  /** What `fetch(url)` followed by `response.text()` produced: a response
      with its `ok` flag, status line and body, or a thrown error. */
  datatype FetchOutcome =
    | Response(ok: bool, status: nat, statusText: string, body: string)
    | Thrown(reason: string)

  /** A `success: false` answer of the start and stop handlers: the HTTP
      status, the `error` text and, after a non-ok reply, the raw body. */
  datatype ApiFailure = ApiFailure(status: nat, error: string, response: Option<string>)

  /** JavaScript's string conversion of a possibly missing value, as the
      `URLSearchParams` record constructor applies it: the value itself, or
      the text `absent` stands for (`"null"`, `"undefined"`). */
  function JsText(o: Option<string>, absent: string): string {
    o.GetOr(absent)
  }

  /** One query parameter, in the order it is serialised. */
  datatype Param = Param(key: string, value: string)

  /** An encoder that escapes the two query delimiters, as both
      `encodeURIComponent` and the form-urlencoded serializer do. */
  ghost predicate EscapesDelimiters(encode: string -> string) {
    forall s :: '&' !in encode(s) && '=' !in encode(s)
  }

  /** `Object.entries(params).map(([k, v]) => `${k}=${encodeURIComponent(v)}`)`:
      values encoded, keys left as they are. */
  function EncodeValues(ps: seq<Param>, encode: string -> string): (r: seq<Param>)
    ensures |r| == |ps|
    ensures forall k :: 0 <= k < |ps| ==> r[k] == Param(ps[k].key, encode(ps[k].value))
  {
    if |ps| == 0 then [] else [Param(ps[0].key, encode(ps[0].value))] + EncodeValues(ps[1..], encode)
  }

  /** `new URLSearchParams(record).toString()`: keys and values both pass
      through the form-urlencoded serializer. */
  function EncodeBoth(ps: seq<Param>, form: string -> string): (r: seq<Param>)
    ensures |r| == |ps|
    ensures forall k :: 0 <= k < |ps| ==> r[k] == Param(form(ps[k].key), form(ps[k].value))
  {
    if |ps| == 0 then [] else [Param(form(ps[0].key), form(ps[0].value))] + EncodeBoth(ps[1..], form)
  }

  function Field(p: Param): string {
    p.key + "=" + p.value
  }

  function Fields(ps: seq<Param>): (fs: seq<string>)
    ensures |fs| == |ps|
    ensures forall k :: 0 <= k < |ps| ==> fs[k] == Field(ps[k])
  {
    if |ps| == 0 then [] else [Field(ps[0])] + Fields(ps[1..])
  }

  /** The already-encoded fields joined by `&`, in order. Splitting the
      result at `&` gives the fields back whenever they are separable. */
  function Serialize(ps: seq<Param>): (q: string)
    ensures Separable(ps) && |ps| >= 1 ==> Split(q, '&') == Fields(ps)
  {
    var fs := Fields(ps);
    if Separable(ps) && |ps| >= 1 then
      FieldsAmpFree(ps);
      SplitJoin(fs, '&');
      Join(fs, '&')
    else
      Join(fs, '&')
  }

  /** Two parameters serialise as `k1=v1&k2=v2`. The key texts come in as
      the literals `head` (`k1=`) and `middle` (`&k2=`), so a caller with
      literal keys need not rebuild them from their pieces. */
  lemma SerializeTwo(k1: string, v1: string, k2: string, v2: string, head: string, middle: string)
    requires head == k1 + "=" && middle == "&" + k2 + "="
    ensures Serialize([Param(k1, v1), Param(k2, v2)]) == head + v1 + middle + v2
  {
    var fs := Fields([Param(k1, v1), Param(k2, v2)]);
    assert Join(fs, '&') == head + v1 + middle + v2 by {
      assert fs[1..] == [fs[1]];
      assert Join(fs[1..], '&') == fs[1];
      assert fs[0] == head + v1;
      assert "&" + fs[1] == middle + v2;
    }
    assert Serialize([Param(k1, v1), Param(k2, v2)]) == Join(fs, '&');
  }

  lemma FieldsAmpFree(ps: seq<Param>)
    requires Separable(ps)
    ensures forall k :: 0 <= k < |ps| ==> '&' !in Fields(ps)[k]
  {
    var fs := Fields(ps);
    forall k | 0 <= k < |fs|
      ensures '&' !in fs[k]
    {
      assert fs[k] == ps[k].key + "=" + ps[k].value;
    }
  }

  /** Encoded parameters the receiver can take apart again: keys free of
      `&` and `=`, values free of `&`. */
  predicate Separable(ps: seq<Param>) {
    forall k :: 0 <= k < |ps| ==> '&' !in ps[k].key && '=' !in ps[k].key && '&' !in ps[k].value
  }

  /** How the receiving server reads one `key=value` field. */
  function ParseField(f: string): Param {
    match IndexOf(f, '=')
    case None => Param(f, "")
    case Some(i) => Param(f[..i], f[i + 1..])
  }

  /** How the receiving server reads a query string. */
  function ParseQuery(q: string): seq<Param> {
    var pieces := Split(q, '&');
    seq(|pieces|, k requires 0 <= k < |pieces| => ParseField(pieces[k]))
  }

  lemma ParseFieldOfField(p: Param)
    requires '=' !in p.key
    ensures ParseField(Field(p)) == p
  {
    var f := Field(p);
    assert f[|p.key|] == '=' && f[..|p.key|] == p.key;
    assert IndexOf(f, '=') == Some(|p.key|);
    assert f[|p.key| + 1..] == p.value;
  }

  /** The server recovers exactly the parameters that were serialised, in
      the same order. */
  lemma ParseSerialize(ps: seq<Param>)
    requires |ps| >= 1
    requires Separable(ps)
    ensures ParseQuery(Serialize(ps)) == ps
  {
    var fs := Fields(ps);
    assert Split(Serialize(ps), '&') == fs;
    forall k | 0 <= k < |ps|
      ensures ParseField(fs[k]) == ps[k]
    {
      ParseFieldOfField(ps[k]);
    }
  }

  /** Parameters whose values went through an encoder that escapes the
      delimiters are separable, provided the plain keys contain neither. */
  lemma ValuesSeparable(ps: seq<Param>, encode: string -> string)
    requires EscapesDelimiters(encode)
    requires forall k :: 0 <= k < |ps| ==> '&' !in ps[k].key && '=' !in ps[k].key
    ensures Separable(EncodeValues(ps, encode))
  {
    var vs := EncodeValues(ps, encode);
    forall k | 0 <= k < |ps|
      ensures '&' !in vs[k].key && '=' !in vs[k].key && '&' !in vs[k].value
    {
      assert vs[k].value == encode(ps[k].value);
    }
  }

  /** Parameters whose keys and values both went through such an encoder
      are always separable. */
  lemma BothSeparable(ps: seq<Param>, form: string -> string)
    requires EscapesDelimiters(form)
    ensures Separable(EncodeBoth(ps, form))
  {
    var bs := EncodeBoth(ps, form);
    forall k | 0 <= k < |ps|
      ensures '&' !in bs[k].key && '=' !in bs[k].key && '&' !in bs[k].value
    {
      assert bs[k].key == form(ps[k].key) && bs[k].value == form(ps[k].value);
    }
  }

  /** `generateChecksum(action, queryString, secret)`: the digest of the
      three strings concatenated with no separator. */
  function Checksum(action: string, query: string, secret: string, hash: string -> string): (c: string)
    ensures c == hash(action + query + secret)
  {
    hash(action + query + secret)
  }

  /** The query part of the request URL: the signed query with the
      checksum appended as the final parameter. */
  function SignedQuery(action: string, query: string, secret: string, hash: string -> string): string {
    query + "&checksum=" + Checksum(action, query, secret, hash)
  }

  /** `${bbbUrl}/api/${action}?${queryString}&checksum=${checksum}`: the
      action's path followed by the signed query. */
  function ApiUrl(base: string, action: string, query: string, secret: string, hash: string -> string): (u: string)
    ensures u == base + "/api/" + action + "?" + query + "&checksum=" + hash(action + query + secret)
  {
    base + "/api/" + action + "?" + SignedQuery(action, query, secret, hash)
  }

  /** The request URL with the action's path given as one literal `prefix`
      such as `"/api/create?"`. Callers pass the literal so that the solver
      never has to rebuild it from `"/api/" + action + "?"` in their own,
      larger, proofs. */
  lemma ApiUrlText(base: string, action: string, prefix: string, query: string, secret: string,
                   hash: string -> string)
    requires prefix == "/api/" + action + "?"
    ensures ApiUrl(base, action, query, secret, hash)
            == base + prefix + query + "&checksum=" + hash(action + query + secret)
  {
  }

  const ChecksumKey: string := "checksum="

  /** This project's model of how a BigBlueButton server checks the query
      part of a call to `action`; the server is not part of the modelled
      code. It accepts when the last field is `checksum=<c>`, and `c` is the
      digest of the action, the fields before it, and the shared secret. */
  predicate Accepts(action: string, fullQuery: string, secret: string, hash: string -> string) {
    var pieces := Split(fullQuery, '&');
    var last := pieces[|pieces| - 1];
    && |pieces| >= 2
    && StartsWithAt(last, 0, ChecksumKey)
    && last[|ChecksumKey|..] == Checksum(action, Join(pieces[..|pieces| - 1], '&'), secret, hash)
  }

  /** Every signed query passes `Accepts` (the hex digest never
      contains `&`). */
  lemma SignedQueryAccepted(action: string, query: string, secret: string, hash: string -> string)
    requires '&' !in Checksum(action, query, secret, hash)
    ensures Accepts(action, SignedQuery(action, query, secret, hash), secret, hash)
  {
    var c := Checksum(action, query, secret, hash);
    var t := ChecksumKey + c;
    assert SignedQuery(action, query, secret, hash) == query + ['&'] + t;
    SplitAppend(query, '&', t);
    var pieces := Split(query, '&') + [t];
    assert pieces[..|pieces| - 1] == Split(query, '&');
    JoinSplit(query, '&');
  }

  /** With a digest that never contains `&`, every signed query passes. */
  lemma HashedQueryAccepted(action: string, query: string, secret: string, hash: string -> string)
    requires EscapesDelimiters(hash)
    ensures Accepts(action, SignedQuery(action, query, secret, hash), secret, hash)
  {
    SignedQueryAccepted(action, query, secret, hash);
  }

  /** A request built as `Object.entries(params)` with encoded values
      reaches the server as exactly those encoded parameters, and its
      checksum passes the check. */
  lemma ValuesRequestWellFormed(action: string, ps: seq<Param>, secret: string,
                                encode: string -> string, hash: string -> string)
    requires |ps| >= 1
    requires EscapesDelimiters(encode) && EscapesDelimiters(hash)
    requires forall k :: 0 <= k < |ps| ==> '&' !in ps[k].key && '=' !in ps[k].key
    ensures var query := Serialize(EncodeValues(ps, encode));
            && ParseQuery(query) == EncodeValues(ps, encode)
            && Accepts(action, SignedQuery(action, query, secret, hash), secret, hash)
  {
    var enc := EncodeValues(ps, encode);
    var query := Serialize(enc);
    assert ParseQuery(query) == enc by {
      ValuesSeparable(ps, encode);
      ParseSerialize(enc);
    }
    HashedQueryAccepted(action, query, secret, hash);
  }

  /** The same for a `URLSearchParams` query, whose keys are encoded too:
      no condition on the keys is needed. */
  lemma BothRequestWellFormed(action: string, ps: seq<Param>, secret: string,
                              form: string -> string, hash: string -> string)
    requires |ps| >= 1
    requires EscapesDelimiters(form) && EscapesDelimiters(hash)
    ensures var query := Serialize(EncodeBoth(ps, form));
            && ParseQuery(query) == EncodeBoth(ps, form)
            && Accepts(action, SignedQuery(action, query, secret, hash), secret, hash)
  {
    var enc := EncodeBoth(ps, form);
    var query := Serialize(enc);
    assert ParseQuery(query) == enc by {
      BothSeparable(ps, form);
      ParseSerialize(enc);
    }
    HashedQueryAccepted(action, query, secret, hash);
  }

  /** Conversely, whatever the server accepts is the signed form of the
      fields before the checksum. */
  lemma AcceptedIsSigned(action: string, fullQuery: string, secret: string, hash: string -> string)
    requires Accepts(action, fullQuery, secret, hash)
    ensures exists query :: fullQuery == SignedQuery(action, query, secret, hash)
  {
    var pieces := Split(fullQuery, '&');
    var query, last := Join(pieces[..|pieces| - 1], '&'), pieces[|pieces| - 1];
    SplitLast(fullQuery, '&');
    SignedOfParts(action, fullQuery, query, last, secret, hash);
  }

  /** A query followed by `&` and a checksum field for that query is the
      signed form of the query. */
  lemma SignedOfParts(action: string, fullQuery: string, query: string, last: string,
                      secret: string, hash: string -> string)
    requires fullQuery == query + ['&'] + last
    requires StartsWithAt(last, 0, ChecksumKey)
    requires last[|ChecksumKey|..] == Checksum(action, query, secret, hash)
    ensures fullQuery == SignedQuery(action, query, secret, hash)
  {
    assert last == ChecksumKey + last[|ChecksumKey|..] by {
      assert last[..|ChecksumKey|] == ChecksumKey;
    }
    assert "&checksum=" == ['&'] + ChecksumKey;
  }

  /** A string with at least two pieces is its leading pieces, a
      separator, and its last piece. */
  lemma SplitLast(s: string, sep: char)
    requires |Split(s, sep)| >= 2
    ensures var pieces := Split(s, sep);
            s == Join(pieces[..|pieces| - 1], sep) + [sep] + pieces[|pieces| - 1]
  {
    var pieces := Split(s, sep);
    var init, last := pieces[..|pieces| - 1], pieces[|pieces| - 1];
    assert Join(pieces, sep) == Join(init, sep) + [sep] + last by {
      assert pieces == init + [last];
      JoinSnoc(init, sep, last);
    }
    JoinSplit(s, sep);
  }


}
