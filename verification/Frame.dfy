/** The frame of a streamed response: a JSON prelude, eight NULs, and the body. */
module Frame {
  import opened Options
  import opened Bytes

  const DELIMITER: seq<Byte> := [0, 0, 0, 0, 0, 0, 0, 0]

  /** bytes.Index(s, DELIMITER). */
  function Index(s: seq<Byte>): (i: Option<nat>)
    ensures i.Some? ==> i.value + 8 <= |s| && s[i.value..i.value + 8] == DELIMITER
  {
    if |s| < 8 then None
    else if s[..8] == DELIMITER then Some(0)
    else
      match Index(s[1..])
      case None => None
      case Some(i) => assert s[1..][i..i + 8] == s[i + 1..i + 9]; Some(i + 1)
  }

  datatype Framed = Framed(prelude: seq<Byte>, body: seq<Byte>)

  /** SplitFrame; `accepts` says whether shapedStatusCode finds a status code in the prelude. */
  function SplitFrame(accepts: seq<Byte> -> bool, payload: seq<Byte>): Option<Framed> {
    match Index(payload)
    case None => None
    case Some(i) => if accepts(payload[..i]) then Some(Framed(payload[..i], payload[i + 8..])) else None
  }

  /** JSON text has no raw NUL: sections 2 and 7 of RFC 8259. */
  ghost predicate AcceptsJsonOnly(accepts: seq<Byte> -> bool) { forall p :: accepts(p) ==> 0 !in p }

  lemma {:induction false} IndexSkipsText(p: seq<Byte>, b: seq<Byte>)
    requires 0 !in p
    ensures Index(p + DELIMITER + b) == Some(|p|)
  {
    var s := p + DELIMITER + b;
    if p == [] {
      assert s[..8] == DELIMITER;
    } else {
      IndexSkipsText(p[1..], b);
      assert s[1..] == p[1..] + DELIMITER + b;
      assert s[..8][0] == p[0] != 0;
    }
  }

  /** A payload is split into a prelude and a body exactly when it is that prelude, eight NULs and that body, whatever
      NULs the body has. */
  lemma SplitIff(accepts: seq<Byte> -> bool, payload: seq<Byte>, p: seq<Byte>, b: seq<Byte>)
    requires AcceptsJsonOnly(accepts)
    ensures SplitFrame(accepts, payload) == Some(Framed(p, b)) <==> accepts(p) && payload == p + DELIMITER + b
  {
    if SplitFrame(accepts, payload) == Some(Framed(p, b)) {
      var i := Index(payload).value;
      assert payload == payload[..i] + payload[i..i + 8] + payload[i + 8..];
    }
    if accepts(p) && payload == p + DELIMITER + b {
      IndexSkipsText(p, b);
      assert payload[..|p|] == p && payload[|p| + 8..] == b;
    }
  }

  /** So a payload is refused exactly when it is no such thing. */
  lemma RefusedIff(accepts: seq<Byte> -> bool, payload: seq<Byte>)
    requires AcceptsJsonOnly(accepts)
    ensures SplitFrame(accepts, payload) == None <==> forall p, b :: accepts(p) ==> payload != p + DELIMITER + b
  {
    if SplitFrame(accepts, payload) == None {
      forall p, b | accepts(p) ensures payload != p + DELIMITER + b { SplitIff(accepts, payload, p, b); }
    }
    if SplitFrame(accepts, payload).Some? {
      var f := SplitFrame(accepts, payload).value;
      SplitIff(accepts, payload, f.prelude, f.body);
    }
  }
}
