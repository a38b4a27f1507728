/** The bodies of HTTP requests on their way into events, and of responses on their way out. */
module Http {
  import opened Options
  import opened Bytes
  import opened Frame
  import Base64
  import Utf8

  // ---------------------------------------------------------------------------------------------
  // Requests
  // ---------------------------------------------------------------------------------------------

  datatype EventBody = EventBody(body: seq<Byte>, isBase64: bool)

  /** isBase64Body; `textual` is what isTextualContentType says of the request's content type. */
  predicate IsBase64Body(body: seq<Byte>, textual: bool) { body != [] && (!textual || !Utf8.Valid(body)) }

  /** The body of FromHTTP's event. */
  function FromHTTP(body: seq<Byte>, textual: bool): EventBody {
    var base64Body := IsBase64Body(body, textual);
    EventBody(if body == [] then [] else if base64Body then Base64.Encode(body) else body, base64Body)
  }

  datatype EventBodyV1 = EventBodyV1(body: Option<seq<Byte>>, isBase64: bool)

  /** The body of FromHTTPV1's event, nil when there is none. */
  function FromHTTPV1(body: seq<Byte>, textual: bool): EventBodyV1 {
    var base64Body := IsBase64Body(body, textual);
    EventBodyV1(if body == [] then None else Some(if base64Body then Base64.Encode(body) else body), base64Body)
  }

  // ---------------------------------------------------------------------------------------------
  // Responses
  // ---------------------------------------------------------------------------------------------

  datatype Shaped = Shaped(headers: map<string, string>, cookies: seq<string>, body: seq<Byte>, isBase64: bool)

  /** What writeShaped writes, if it writes. */
  function ShapedBody(resp: Shaped): Option<seq<Byte>> {
    if resp.isBase64 then Base64.Decode(resp.body) else Some(resp.body)
  }

  /** The event's body can travel as a JSON string, and a handler that gives it back as its shaped response's has the
      original bytes written. */
  lemma EchoRoundTrip(body: seq<Byte>, textual: bool, headers: map<string, string>, cookies: seq<string>)
    ensures var e := FromHTTP(body, textual);
            Utf8.Valid(e.body) && ShapedBody(Shaped(headers, cookies, e.body, e.isBase64)) == Some(body)
  {
    Base64.RoundTrip(body);
    Utf8.AsciiIsValid(Base64.Encode(body));
  }

  /** The body is in the event as it came exactly if it is text that can be, and the flag tells when it is not. */
  lemma TextArrivesAsItIs(body: seq<Byte>, textual: bool)
    ensures var e := FromHTTP(body, textual);
            && (e.body == body <==> body == [] || (textual && Utf8.Valid(body)))
            && (e.isBase64 <==> e.body != body)
  {
    assert |Base64.Encode(body)| == (|body| + 2) / 3 * 4;
    assert body != [] ==> (|body| + 2) / 3 * 4 > |body|;
  }

  /** The v1 event makes the same round trip; its missing body is decoded from null as an empty one. */
  lemma EchoRoundTripV1(body: seq<Byte>, textual: bool, headers: map<string, string>, cookies: seq<string>)
    ensures var e := FromHTTPV1(body, textual);
            var text := if e.body.Some? then e.body.value else [];
            && (e.body == None <==> body == []) && Utf8.Valid(text)
            && ShapedBody(Shaped(headers, cookies, text, e.isBase64)) == Some(body)
  {
    EchoRoundTrip(body, textual, headers, cookies);
  }

  /** And its body, if there is one, is as it came exactly if it is text that can be. */
  lemma TextArrivesAsItIsV1(body: seq<Byte>, textual: bool)
    ensures var e := FromHTTPV1(body, textual);
            && (e.body == Some(body) <==> body != [] && textual && Utf8.Valid(body))
            && (e.isBase64 <==> body != [] && e.body != Some(body))
  {
    assert body != [] ==> |Base64.Encode(body)| > |body|;
  }

  function Lower(s: string): string { if s == "" then "" else [LowerChar(s[0])] + Lower(s[1..]) }

  function LowerChar(c: char): char { if 'A' <= c <= 'Z' then c - 'A' + 'a' else c }

  function UpperChar(c: char): char { if 'a' <= c <= 'z' then c - 'a' + 'A' else c }

  /** The characters of a header name; any other leaves the name as it is. */
  predicate IsToken(c: char) {
    'a' <= c <= 'z' || 'A' <= c <= 'Z' || '0' <= c <= '9' || c in "!#$%&'*+-.^_`|~"
  }

  predicate AllTokens(s: string) { s == "" || (IsToken(s[0]) && AllTokens(s[1..])) }

  function Cased(s: string, upper: bool): string {
    if s == "" then "" else [if upper then UpperChar(s[0]) else LowerChar(s[0])] + Cased(s[1..], s[0] == '-')
  }

  /** textproto.CanonicalMIMEHeaderKey. */
  function Canonical(s: string): string { if AllTokens(s) then Cased(s, true) else s }

  /** Letter by letter: a token's letters are small, but for those at its front and after a dash; what is no token
      (section 5.6.2 of RFC 9110) stays as it is. */
  lemma {:induction false} CanonicalForm(s: string, i: nat)
    requires i < |s|
    ensures |Canonical(s)| == |s|
    ensures (forall j :: 0 <= j < |s| ==> IsToken(s[j])) ==>
              Canonical(s)[i] == if i == 0 || s[i - 1] == '-' then (if 'a' <= s[i] <= 'z' then s[i] - 'a' + 'A' else s[i])
                                 else if 'A' <= s[i] <= 'Z' then s[i] - 'A' + 'a' else s[i]
    ensures (exists j :: 0 <= j < |s| && !IsToken(s[j])) ==> Canonical(s) == s
  {
    TokensAre(s);
    CasedAt(s, true, i);
  }

  lemma {:induction false} CasedAt(s: string, upper: bool, i: nat)
    requires i < |s|
    ensures |Cased(s, upper)| == |s|
    ensures Cased(s, upper)[i]
            == if if i == 0 then upper else s[i - 1] == '-' then UpperChar(s[i]) else LowerChar(s[i])
  {
    if i > 0 { CasedAt(s[1..], s[0] == '-', i - 1); } else if |s| > 1 { CasedAt(s[1..], s[0] == '-', 0); }
  }

  lemma {:induction false} TokensAre(s: string)
    ensures AllTokens(s) <==> forall j :: 0 <= j < |s| ==> IsToken(s[j])
  {
    if s != "" {
      TokensAre(s[1..]);
      assert forall j :: 0 < j < |s| ==> s[j] == s[1..][j - 1];
    }
  }

  // Both are in canonical form as they stand.
  const CONTENT_TYPE: string := "Content-Type"
  const SET_COOKIE: string := "Set-Cookie"

  /** strings.EqualFold(k, "Content-Type"). */
  predicate IsContentType(k: string) { Lower(k) == Lower(CONTENT_TYPE) }

  /** hasContentType. */
  predicate HasContentType(headers: map<string, string>) { exists k :: k in headers && IsContentType(k) }

  predicate HasName(headers: map<string, string>, name: string) { exists k :: k in headers && Canonical(k) == name }

  lemma {:induction false} CasedByLower(a: string, b: string, upper: bool)
    requires Lower(a) == Lower(b)
    ensures Cased(a, upper) == Cased(b, upper) && AllTokens(a) == AllTokens(b)
  {
    if a == "" {
      assert b == "";
    } else {
      assert b != "";
      assert LowerChar(a[0]) == Lower(a)[0] == Lower(b)[0] == LowerChar(b[0]);
      assert Lower(a[1..]) == Lower(a)[1..] == Lower(b)[1..] == Lower(b[1..]);
      CasedByLower(a[1..], b[1..], a[0] == '-');
    }
  }

  lemma {:induction false} LowerOfCased(s: string, upper: bool)
    ensures Lower(Cased(s, upper)) == Lower(s)
  {
    if s != "" {
      LowerOfCased(s[1..], s[0] == '-');
      CasesLower(s[0]);
      var c := if upper then UpperChar(s[0]) else LowerChar(s[0]);
      LowerOfCons(c, Cased(s[1..], s[0] == '-'));
    }
  }

  lemma CasesLower(c: char)
    ensures LowerChar(UpperChar(c)) == LowerChar(c) && LowerChar(LowerChar(c)) == LowerChar(c)
  { }

  lemma LowerOfCons(c: char, s: string)
    ensures Lower([c] + s) == [LowerChar(c)] + Lower(s)
  {
    assert ([c] + s)[1..] == s;
  }

  lemma ContentTypeIsTokens()
    ensures AllTokens("Content-Type")
  {
    assert AllTokens("-Type");
    assert "Content-Type"[7..] == "-Type";
    assert AllTokens("Content-Type"[7..]);
    assert AllTokens("Content-Type"[3..]);
  }

  /** Capitalised words with a dash between them stay as they are. */
  lemma TwoWords(a: string, b: string)
    requires a != "" && 'A' <= a[0] <= 'Z' && forall i :: 1 <= i < |a| ==> 'a' <= a[i] <= 'z'
    requires b != "" && 'A' <= b[0] <= 'Z' && forall i :: 1 <= i < |b| ==> 'a' <= b[i] <= 'z'
    ensures Cased(a + ("-" + b), true) == a + ("-" + b)
  {
    Word(a);
    Word(b);
    CasedInMiddle(a, "-" + b, true);
    AfterDash(b);
  }

  lemma ContentTypeIsCased(name: string)
    requires name == CONTENT_TYPE
    ensures Cased(name, true) == name
  {
    assert name == "Content" + ("-" + "Type");
    TwoWords("Content", "Type");
  }

  lemma AfterDash(w: string)
    ensures Cased("-" + w, false) == "-" + Cased(w, true)
  {
    assert ("-" + w)[1..] == w;
  }

  /** A word with a capital first letter, and no other, stays as it is. */
  lemma Word(w: string)
    requires w != "" && 'A' <= w[0] <= 'Z' && forall i :: 1 <= i < |w| ==> 'a' <= w[i] <= 'z'
    ensures Cased(w, true) == w
  {
    SmallStays(w[1..]);
    assert w == [w[0]] + w[1..];
  }

  lemma {:induction false} SmallStays(w: string)
    requires forall i :: 0 <= i < |w| ==> 'a' <= w[i] <= 'z'
    ensures Cased(w, false) == w
  {
    if w != "" { SmallStays(w[1..]); assert w == [w[0]] + w[1..]; }
  }

  lemma {:induction false} CasedInMiddle(a: string, b: string, upper: bool)
    requires forall i :: 0 <= i < |a| ==> a[i] != '-'
    ensures Cased(a + b, upper) == Cased(a, upper) + Cased(b, if a == "" then upper else false)
  {
    if a == "" {
      assert a + b == b;
    } else {
      assert (a + b)[1..] == a[1..] + b;
      CasedInMiddle(a[1..], b, false);
    }
  }

  /** hasContentType looks for exactly the names that Set will take for Content-Type. */
  lemma ContentTypeIsCanonical(k: string)
    ensures IsContentType(k) <==> Canonical(k) == CONTENT_TYPE
  {
    var name := CONTENT_TYPE;
    ContentTypeIsTokens();
    ContentTypeIsCased(name);
    LowerOfCased(k, true);
    if IsContentType(k) { CasedByLower(k, name, true); }
  }

  type Header = map<string, seq<string>>

  /** The names and values a header holds once some of a response's headers have been set, in whatever order: each has
      the one value of some header of that name, and one name has a default if it is none of theirs. */
  ghost predicate SetFrom(h: Header, headers: map<string, string>, done: set<string>, name: string, default: string) {
    && (forall k :: k in done ==>
          k in headers && Canonical(k) in h && HasValueOf(h[Canonical(k)], headers, done, Canonical(k)))
    && (!HasName(headers, name) ==> name in h && h[name] == [default])
    && (forall n :: n in h ==> (n == name && !HasName(headers, name)) || exists k :: k in done && Canonical(k) == n)
  }

  ghost predicate HasValueOf(values: seq<string>, headers: map<string, string>, done: set<string>, name: string) {
    exists k :: k in done && k in headers && Canonical(k) == name && values == [headers[k]]
  }

  function WithCookies(h: Header, name: string, cookies: seq<string>): Header {
    if cookies == [] then h else h[name := (if name in h then h[name] else []) + cookies]
  }

  /** What a response's header ends up as. */
  ghost predicate Written(h: Header, headers: map<string, string>, cookies: seq<string>, default: string) {
    exists before: Header ::
      SetFrom(before, headers, headers.Keys, CONTENT_TYPE, default) && h == WithCookies(before, SET_COOKIE, cookies)
  }

  /** net/http takes a status of three digits and panics at any other; one below 200 but for 101 is sent at once and
      leaves the final one open. */
  predicate ValidStatus(code: int) { 100 <= code <= 999 }

  predicate Informational(code: int) { 100 <= code < 200 && code != 101 }

  predicate BodyAllowed(code: int) { code >= 200 && code != 204 && code != 304 }

  datatype WriteResult = Sent | WriteFailed | Panicked

  /** How a response with this status and this body is written. */
  ghost predicate WrittenAs(code: int, body: seq<Byte>, r: WriteResult, status: Option<int>, interim: seq<int>,
                            written: seq<Byte>, writes: nat) {
    if code < 100 || 999 < code then r == Panicked && status == None && interim == [] && written == [] && writes == 0
    else
      var sentAtOnce := 100 <= code <= 199 && code != 101;
      && r != Panicked && writes == (if body == [] then 0 else 1)
      && interim == (if sentAtOnce then [code] else [])
      && status == (if !sentAtOnce then Some(code) else if body == [] then None else Some(200))
      && written <= body && (r == Sent ==> written == body)
      && (body == [] ==> r == Sent)
      && (body != [] && code in {101, 204, 304} ==> r == WriteFailed && written == [])
  }

  class ResponseWriter {
    var header: Header
    var status: Option<int>           // the final one, once it is sent
    var interim: seq<int>
    var written: seq<Byte>
    ghost var writes: nat             // the calls of Write

    ghost predicate Fresh()
      reads this
    {
      header == map[] && status == None && interim == [] && written == [] && writes == 0
    }

    // Set and Add are given names in canonical form.

    method Set(name: string, v: string)
      modifies this`header
      ensures header == old(header)[name := [v]]
    {
      header := header[name := [v]];
    }

    method Add(name: string, v: string)
      modifies this`header
      ensures header == WithCookies(old(header), name, [v])
    {
      header := header[name := (if name in header then header[name] else []) + [v]];
    }

    method WriteHeader(code: int) returns (panics: bool)
      requires status == None
      modifies this`status, this`interim
      ensures panics <==> !ValidStatus(code)
      ensures status == if panics || Informational(code) then None else Some(code)
      ensures interim == old(interim) + if !panics && Informational(code) then [code] else []
    {
      if code < 100 || code > 999 { return true; }
      panics := false;
      if Informational(code) { interim := interim + [code]; } else { status := Some(code); }
    }

    /** A status that is still open becomes 200; one that has no body refuses it. */
    method Write(b: seq<Byte>) returns (ok: bool)
      modifies this`status, this`written, this`writes
      ensures writes == old(writes) + 1 && status == if old(status) == None then Some(200) else old(status)
      ensures old(written) <= written <= old(written) + b && (ok ==> written == old(written) + b)
      ensures !BodyAllowed(status.value) ==> !ok && written == old(written)
    {
      writes := writes + 1;
      if status == None { status := Some(200); }
      if !BodyAllowed(status.value) { return false; }
      for k := 0 to |b|
        invariant written == old(written) + b[..k]
        invariant writes == old(writes) + 1 && status == if old(status) == None then Some(200) else old(status)
      {
        if * { return false; }
        written := written + [b[k]];
        assert b[..k + 1] == b[..k] + [b[k]];
      }
      assert b[..|b|] == b;
      ok := true;
    }

    /** writeHeadersStatusBody; for no body there is no write. */
    method WriteHeadersStatusBody(code: int, headers: map<string, string>, cookies: seq<string>, body: seq<Byte>,
                                  default: string) returns (r: WriteResult)
      requires Fresh()
      modifies this
      ensures Written(header, headers, cookies, default)
      ensures WrittenAs(code, body, r, status, interim, written, writes)
    {
      var has := HasContentType(headers);
      ContentTypeIsName(headers);
      WriteHeaders(headers, cookies, default, has);
      r := WriteStatusBody(code, body);
    }

    method WriteStatusBody(code: int, body: seq<Byte>) returns (r: WriteResult)
      requires status == None && interim == [] && written == [] && writes == 0
      modifies this`status, this`interim, this`written, this`writes
      ensures WrittenAs(code, body, r, status, interim, written, writes)
    {
      var panics := WriteHeader(code);
      if panics { return Panicked; }
      if |body| > 0 {
        var ok := Write(body);
        if !ok { return WriteFailed; }
      }
      r := Sent;
    }

    method WriteHeaders(headers: map<string, string>, cookies: seq<string>, default: string, has: bool)
      requires header == map[] && has == HasName(headers, CONTENT_TYPE)
      modifies this`header
      ensures Written(header, headers, cookies, default)
    {
      if !has { Set(CONTENT_TYPE, default); }
      SetHeaders(headers, CONTENT_TYPE, default);
      IsWritten(header, headers, cookies, default);
      AddCookies(cookies);
    }

    method SetHeaders(headers: map<string, string>, ghost name: string, ghost default: string)
      requires header == if HasName(headers, name) then map[] else map[name := [default]]
      modifies this`header
      ensures SetFrom(header, headers, headers.Keys, name, default)
    {
      var rest := headers.Keys;
      while rest != {}
        invariant rest <= headers.Keys && SetFrom(header, headers, headers.Keys - rest, name, default)
        decreases rest
      {
        var k :| k in rest;
        SetsOne(header, headers, headers.Keys - rest, name, default, k);
        Set(Canonical(k), headers[k]);
        assert headers.Keys - (rest - {k}) == headers.Keys - rest + {k};
        rest := rest - {k};
      }
      assert headers.Keys - rest == headers.Keys;
    }

    method AddCookies(cookies: seq<string>)
      modifies this`header
      ensures header == WithCookies(old(header), SET_COOKIE, cookies)
    {
      for k := 0 to |cookies|
        invariant header == WithCookies(old(header), SET_COOKIE, cookies[..k])
      {
        OneMoreCookie(old(header), SET_COOKIE, cookies[..k], cookies[k]);
        assert cookies[..k + 1] == cookies[..k] + [cookies[k]];
        Add(SET_COOKIE, cookies[k]);
      }
      assert cookies[..|cookies|] == cookies;
    }

    /** writeShaped: a body that is not the base64 it says it is writes nothing at all. */
    method WriteShaped(code: int, resp: Shaped) returns (r: Option<WriteResult>)
      requires Fresh()
      modifies this
      ensures r == None <==> ShapedBody(resp) == None
      ensures r == None ==> Fresh()
      ensures r.Some? ==>
                && Written(header, resp.headers, resp.cookies, "application/json")
                && WrittenAs(code, ShapedBody(resp).value, r.value, status, interim, written, writes)
    {
      var body := resp.body;
      if resp.isBase64 {
        var decoded := Base64.Decode(resp.body);
        if decoded == None { return None; }
        body := decoded.value;
      }
      var written := WriteHeadersStatusBody(code, resp.headers, resp.cookies, body, "application/json");
      r := Some(written);
    }

    /** ToHTTPStream, up to its error: a payload that is no frame writes nothing at all, so that another way of writing
        it can be tried. */
    method ToHTTPStream(payload: seq<Byte>, accepts: seq<Byte> -> bool, decode: seq<Byte> -> Option<Prelude>)
      returns (r: StreamResult)
      requires Fresh()
      modifies this
      ensures r == NotFramed <==> SplitFrame(accepts, payload) == None
      ensures r == NotFramed || r == BadPrelude ==> Fresh()
      ensures r.Streamed? ==>
                var f := SplitFrame(accepts, payload).value;
                && decode(f.prelude).Some?
                && var p := decode(f.prelude).value;
                && Written(header, p.headers, p.cookies, "application/octet-stream")
                && WrittenAs(p.status, f.body, r.result, status, interim, written, writes)
    {
      var f := SplitFrame(accepts, payload);
      if f == None { return NotFramed; }
      var prelude := decode(f.value.prelude);
      if prelude == None { return BadPrelude; }
      var p := prelude.value;
      var written := WriteHeadersStatusBody(p.status, p.headers, p.cookies, f.value.body, "application/octet-stream");
      r := Streamed(written);
    }
  }

  datatype Prelude = Prelude(status: int, headers: map<string, string>, cookies: seq<string>)
  datatype StreamResult = NotFramed | BadPrelude | Streamed(result: WriteResult)

  lemma IsWritten(before: Header, headers: map<string, string>, cookies: seq<string>, default: string)
    requires SetFrom(before, headers, headers.Keys, CONTENT_TYPE, default)
    ensures Written(WithCookies(before, SET_COOKIE, cookies), headers, cookies, default)
  {
  }

  lemma ContentTypeIsName(headers: map<string, string>)
    ensures HasContentType(headers) <==> HasName(headers, CONTENT_TYPE)
  {
    forall k ensures IsContentType(k) <==> Canonical(k) == CONTENT_TYPE { ContentTypeIsCanonical(k); }
  }

  lemma SetsOne(h: Header, headers: map<string, string>, done: set<string>, name: string, default: string, k: string)
    requires SetFrom(h, headers, done, name, default) && k in headers
    ensures SetFrom(h[Canonical(k) := [headers[k]]], headers, done + {k}, name, default)
  {
    var c := Canonical(k);
    var h', done' := h[c := [headers[k]]], done + {k};
    forall j | j in done' ensures j in headers && Canonical(j) in h'
        && HasValueOf(h'[Canonical(j)], headers, done', Canonical(j)) {
      if Canonical(j) != c {
        var i :| i in done && i in headers && Canonical(i) == Canonical(j) && h[Canonical(j)] == [headers[i]];
        assert i in done';
      }
    }
    forall n | n in h' ensures (n == name && !HasName(headers, name)) || exists j :: j in done' && Canonical(j) == n {
      if n != c && !(n == name && !HasName(headers, name)) {
        var j :| j in done && Canonical(j) == n;
        assert j in done';
      }
    }
  }

  /** What the client sees: exactly one Content-Type, the handler's if it gave one and the default otherwise. */
  lemma OneContentType(h: Header, headers: map<string, string>, cookies: seq<string>, default: string)
    requires Written(h, headers, cookies, default)
    ensures CONTENT_TYPE in h && |h[CONTENT_TYPE]| == 1
    ensures HasContentType(headers) ==> exists k :: k in headers && IsContentType(k) && h[CONTENT_TYPE] == [headers[k]]
    ensures !HasContentType(headers) ==> h[CONTENT_TYPE] == [default]
  {
    var before: Header :|
      SetFrom(before, headers, headers.Keys, CONTENT_TYPE, default) && h == WithCookies(before, SET_COOKIE, cookies);
    CookiesKeep(before, cookies);
    ContentTypeIsName(headers);
    OneOfName(before, headers, CONTENT_TYPE, default);
    if HasContentType(headers) {
      var k :| k in headers && Canonical(k) == CONTENT_TYPE && before[CONTENT_TYPE] == [headers[k]];
      ContentTypeIsCanonical(k);
    }
  }

  lemma CookiesKeep(h: Header, cookies: seq<string>)
    ensures CONTENT_TYPE in h ==>
              var h' := WithCookies(h, SET_COOKIE, cookies);
              CONTENT_TYPE in h' && h'[CONTENT_TYPE] == h[CONTENT_TYPE]
  {
    assert |CONTENT_TYPE| == 12 && |SET_COOKIE| == 10;
  }

  lemma OneOfName(h: Header, headers: map<string, string>, name: string, default: string)
    requires SetFrom(h, headers, headers.Keys, name, default)
    ensures name in h && |h[name]| == 1
    ensures if HasName(headers, name) then exists k :: k in headers && Canonical(k) == name && h[name] == [headers[k]]
            else h[name] == [default]
  {
    if HasName(headers, name) {
      var k :| k in headers && Canonical(k) == name;
      assert HasValueOf(h[Canonical(k)], headers, headers.Keys, Canonical(k));
    }
  }

  lemma OneMoreCookie(h: Header, name: string, cookies: seq<string>, c: string)
    ensures WithCookies(WithCookies(h, name, cookies), name, [c]) == WithCookies(h, name, cookies + [c])
  {
    var first := if name in h then h[name] else [];
    assert first + cookies + [c] == first + (cookies + [c]);
    if cookies == [] { assert cookies + [c] == [c]; }
  }
}
