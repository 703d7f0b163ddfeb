/** What is hashed to identify a request: three parts, each with its length in front. A string is a sequence of
  bytes here, as it is in Go. */
module Fingerprint {
  import opened Options
  import Decimal

  const VERSIONED := "/api/v1"

  predicate StartsWith(s: string, prefix: string) {
    |prefix| <= |s| && s[..|prefix|] == prefix
  }

  /** The versioned surface is the unversioned one served twice. */
  function CanonicalPath(path: string): string {
    if StartsWith(path, VERSIONED + "/") then "/" + path[8..]
    else if path == VERSIONED then "/"
    else path
  }

  function Frame(part: string): string {
    Decimal.Digits(|part|) + ":" + part
  }

  function Framed(parts: seq<string>): string {
    if parts == [] then "" else Frame(parts[0]) + Framed(parts[1..])
  }

  // ---------- the decoder ----------

  /** The length of the run of digits at the front. */
  function DigitRun(s: string): (n: nat)
    ensures n <= |s| && forall i | 0 <= i < n :: Decimal.IsDigit(s[i])
    ensures n < |s| ==> !Decimal.IsDigit(s[n])
  {
    if s != "" && Decimal.IsDigit(s[0]) then 1 + DigitRun(s[1..]) else 0
  }

  datatype Cut = Cut(part: string, rest: string)

  /** Reads one length, a colon, and that many bytes. */
  function Unframe(s: string): Option<Cut> {
    var n := DigitRun(s);
    if n == 0 || n == |s| || s[n] != ':' then None
    else
      var size, start := Decimal.Value(s[..n]), n + 1;
      if start + size > |s| then None else Some(Cut(s[start..start + size], s[start + size..]))
  }

  function Unframed(s: string, count: nat): Option<seq<string>> {
    if count == 0 then (if s == "" then Some([]) else None)
    else
      match Unframe(s)
      case None => None
      case Some(cut) =>
        match Unframed(cut.rest, count - 1)
        case None => None
        case Some(parts) => Some([cut.part] + parts)
  }

  lemma {:induction false} DigitRunStops(digits: string, rest: string)
    requires forall i | 0 <= i < |digits| :: Decimal.IsDigit(digits[i])
    requires rest != "" && !Decimal.IsDigit(rest[0])
    ensures DigitRun(digits + rest) == |digits|
  {
    if digits == "" {
      assert digits + rest == rest;
    } else {
      DigitRunStops(digits[1..], rest);
      assert (digits + rest)[1..] == digits[1..] + rest;
    }
  }

  lemma UnframeFrame(part: string, rest: string)
    ensures Unframe(Frame(part) + rest) == Some(Cut(part, rest))
  {
    var digits, tail := Decimal.Digits(|part|), ":" + part + rest;
    var s := Frame(part) + rest;
    assert s == digits + tail;
    DigitRunStops(digits, tail);
    assert s[..|digits|] == digits;
    Decimal.ValueOfDigits(|part|);
    var start := |digits| + 1;
    assert s[start..start + |part|] == part;
    assert s[start + |part|..] == rest;
  }

  /** The decoder inverts the encoder. */
  lemma {:induction false} RoundTrip(parts: seq<string>)
    ensures Unframed(Framed(parts), |parts|) == Some(parts)
  {
    if parts != [] {
      UnframeFrame(parts[0], Framed(parts[1..]));
      RoundTrip(parts[1..]);
      assert parts == [parts[0]] + parts[1..];
    }
  }

  /** So no parts can be re-cut into others, of the same or another number. */
  lemma {:induction false} FramingIsInjective(a: seq<string>, b: seq<string>)
    ensures Framed(a) == Framed(b) <==> a == b
  {
    if Framed(a) == Framed(b) {
      if a == [] || b == [] {
        assert forall part :: |Frame(part)| > 0;
      } else {
        UnframeFrame(a[0], Framed(a[1..]));
        UnframeFrame(b[0], Framed(b[1..]));
        FramingIsInjective(a[1..], b[1..]);
        assert a == [a[0]] + a[1..] && b == [b[0]] + b[1..];
      }
    }
  }

  // ---------- the request ----------

  function Hashed(verb: string, path: string, body: string): string {
    Framed([verb, CanonicalPath(path), body])
  }

  /** What is hashed for two requests is the same exactly when all three parts are. */
  lemma SameHashedIffSameRequest(verb: string, path: string, body: string, verb': string, path': string, body': string)
    ensures Hashed(verb, path, body) == Hashed(verb', path', body')
      <==> verb == verb' && CanonicalPath(path) == CanonicalPath(path') && body == body'
  {
    var a, b := [verb, CanonicalPath(path), body], [verb', CanonicalPath(path'), body'];
    FramingIsInjective(a, b);
    if a == b { assert a[0] == b[0] && a[1] == b[1] && a[2] == b[2]; }
  }

  /** Spelled out: each part behind its length and a colon, in this order. */
  lemma HashedSpelled(verb: string, path: string, body: string)
    ensures Hashed(verb, path, body)
      == (Decimal.Digits(|verb|) + ":" + verb)
         + ((Decimal.Digits(|CanonicalPath(path)|) + ":" + CanonicalPath(path))
            + (Decimal.Digits(|body|) + ":" + body))
  {
    FramedThree(verb, CanonicalPath(path), body);
  }

  lemma FramedThree(a: string, b: string, c: string)
    ensures Framed([a, b, c]) == Frame(a) + (Frame(b) + Frame(c))
  {
    assert [a, b, c][1..] == [b, c] && [b, c][1..] == [c] && [c][1..] == [];
    assert Framed([c]) == Frame(c) + Framed([]);
    assert Framed([b, c]) == Frame(b) + Framed([c]);
  }

  /** The hash is fed part by part. */
  method Feed(parts: seq<string>) returns (fed: string)
    ensures fed == Framed(parts)
  {
    fed := "";
    for i := 0 to |parts|
      invariant fed + Framed(parts[i..]) == Framed(parts)
    {
      FramedRest(parts, i);
      assert fed + (Frame(parts[i]) + Framed(parts[i + 1..])) == fed + Frame(parts[i]) + Framed(parts[i + 1..]);
      fed := fed + (Decimal.Digits(|parts[i]|) + ":");
      fed := fed + parts[i];
    }
  }

  lemma FramedRest(parts: seq<string>, i: nat)
    requires i < |parts|
    ensures Framed(parts[i..]) == Frame(parts[i]) + Framed(parts[i + 1..])
  {
    assert parts[i..][0] == parts[i] && parts[i..][1..] == parts[i + 1..];
  }

  method Fingerprint(hash: string -> seq<int>, verb: string, path: string, body: string) returns (sum: seq<int>)
    ensures sum == hash(Hashed(verb, path, body))
  {
    var fed := Feed([verb, CanonicalPath(path), body]);
    sum := hash(fed);
  }

  // ---------- the two surfaces ----------

  /** The paths that are rewritten. */
  predicate Rewritten(path: string) {
    path == VERSIONED || StartsWith(path, VERSIONED + "/")
  }

  /** The paths that stand for an endpoint: its own, unless that is itself rewritten; its versioned one; and for
    the root also the versioned prefix alone. */
  function Aliases(endpoint: string): set<string> {
    (if Rewritten(endpoint) then {} else {endpoint})
    + (if StartsWith(endpoint, "/") then {VERSIONED + endpoint} else {})
    + (if endpoint == "/" then {VERSIONED} else {})
  }

  /** Spelled out: /api/v1 is taken off the front, and nothing else is changed. */
  lemma CanonicalSpelled(path: string)
    ensures CanonicalPath("/api/v1/" + path) == "/" + path
    ensures CanonicalPath("/api/v1") == "/"
    ensures !("/api/v1/" <= path) && path != "/api/v1" ==> CanonicalPath(path) == path
  {
    var p := "/api/v1/";
    assert p == VERSIONED + "/" && |p| == 8;
    assert (p + path)[..8] == p && (p + path)[8..] == path;
    if StartsWith(path, p) { assert p <= path; }
  }

  lemma CanonicalIffAlias(path: string, endpoint: string)
    ensures CanonicalPath(path) == endpoint <==> path in Aliases(endpoint)
  {
    var p := VERSIONED + "/";
    assert |p| == 8;
    if StartsWith(path, p) {
      assert path == p + path[8..];
      assert CanonicalPath(path) == "/" + path[8..];
      assert path == VERSIONED + CanonicalPath(path);
      if path in Aliases(endpoint) && !Rewritten(path) { assert false; }
      if path == VERSIONED + endpoint { assert endpoint == path[7..] == "/" + path[8..]; }
    }
  }

  /** Only one prefix is removed. A path is canonical after one rewriting exactly when it does not have the
    prefix twice. */
  lemma CanonicalOnceIff(path: string)
    ensures CanonicalPath(CanonicalPath(path)) == CanonicalPath(path)
      <==> !(StartsWith(path, VERSIONED) && Rewritten(path[|VERSIONED|..]))
  {
    var once := CanonicalPath(path);
    RewritingShortens(once);
    if StartsWith(path, VERSIONED + "/") {
      assert path[7] == (VERSIONED + "/")[7] == '/';
      assert once == path[7..];
      assert path[..7] == path[..8][..7] == VERSIONED;
    }
  }

  lemma RewritingShortens(path: string)
    ensures Rewritten(path) <==> CanonicalPath(path) != path
  {
    if StartsWith(path, VERSIONED + "/") { assert |CanonicalPath(path)| == |path| - 7; }
  }
}
