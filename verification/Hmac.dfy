/** The signed envelope: `<base64url(payload)>.<base64url(tag)>`, the tag over context and payload. */
module Hmac {
  import opened Prelude
  import opened Texts
  import opened Platform

  /** The instance key: signing is injective, and a tag is a non-empty byte string. */
  ghost predicate IsKey(sign: seq<byte> -> seq<byte>) {
    && (forall a, b :: sign(a) == sign(b) ==> a == b)
    && (forall a :: sign(a) != [])
  }

  /** The bytes a tag covers, written prefix first and payload after it. */
  method WithContext(h: Host, context: string, payload: seq<byte>) returns (signed: array<byte>)
    ensures fresh(signed) && signed[..] == h.utf8(context) + payload
  {
    var prefix := h.utf8(context);
    signed := new byte[|prefix| + |payload|](_ => 0);
    for i := 0 to |prefix|
      invariant signed[..i] == prefix[..i]
    {
      signed[i] := prefix[i];
    }
    for i := 0 to |payload|
      invariant signed[..|prefix|] == prefix && signed[|prefix|..|prefix| + i] == payload[..i]
    {
      signed[|prefix| + i] := payload[i];
    }
    assert signed[..] == signed[..|prefix|] + signed[|prefix|..|prefix| + |payload|];
  }

  function Tag(h: Host, sign: seq<byte> -> seq<byte>, context: string, payload: seq<byte>): seq<byte> {
    sign(h.utf8(context) + payload)
  }

  function Envelope(h: Host, sign: seq<byte> -> seq<byte>, context: string, payload: seq<byte>): string {
    h.base64(payload) + ['.'] + h.base64(Tag(h, sign, context, payload))
  }

  function Opened(h: Host, sign: seq<byte> -> seq<byte>, context: string, value: string): Option<seq<byte>> {
    var at := IndexOf(value, '.');
    if at <= 0 || at == |value| - 1 then None
    else match (h.fromBase64(value[..at]), h.fromBase64(value[at + 1..]))
      case (Some(payload), Some(mac)) => if mac == Tag(h, sign, context, payload) then Some(payload) else None
      case _ => None
  }

  method SignedValue(h: Host, sign: seq<byte> -> seq<byte>, context: string, payload: seq<byte>) returns (value: string)
    ensures value == Envelope(h, sign, context, payload)
  {
    var signed := WithContext(h, context, payload);
    value := h.base64(payload) + ['.'] + h.base64(sign(signed[..]));
  }

  method VerifySignedValue(h: Host, sign: seq<byte> -> seq<byte>, context: string, value: string)
      returns (r: Option<seq<byte>>)
    ensures r == Opened(h, sign, context, value)
  {
    var at := IndexOf(value, '.');
    if at <= 0 || at == |value| - 1 {
      return None;
    }
    var payload, mac := h.fromBase64(value[..at]), h.fromBase64(value[at + 1..]);
    if payload.None? || mac.None? {
      return None;
    }
    var signed := WithContext(h, context, payload.value);
    return if sign(signed[..]) == mac.value then payload else None;
  }

  /** An envelope opens under its own context and no other, and never for an empty payload. */
  lemma OpensUnderItsContext(h: Host, sign: seq<byte> -> seq<byte>, context: string, payload: seq<byte>, other: string)
    requires Lawful(h) && IsKey(sign)
    ensures Opened(h, sign, other, Envelope(h, sign, context, payload))
         == if payload != [] && other == context then Some(payload) else None
  {
    var head, tag := h.base64(payload), Tag(h, sign, context, payload);
    var value := head + ['.'] + h.base64(tag);
    NoSeparator(h, payload, '.');
    NonEmptyEncoding(h, payload);
    NonEmptyEncoding(h, tag);
    IndexOfSeparator(head, '.', h.base64(tag));
    assert value[..|head|] == head && value[|head| + 1..] == h.base64(tag);
    assert h.fromBase64(head) == Some(payload) && h.fromBase64(h.base64(tag)) == Some(tag);
    if tag == Tag(h, sign, other, payload) {
      SameSuffix(h.utf8(context), h.utf8(other), payload);
      assert h.fromUtf8(h.utf8(context)) == Some(context) && h.fromUtf8(h.utf8(other)) == Some(other);
    }
  }

  lemma SameSuffix(a: seq<byte>, b: seq<byte>, payload: seq<byte>)
    requires a + payload == b + payload
    ensures a == b
  {
    assert |a| == |b|;
    assert a == (a + payload)[..|a|] && b == (b + payload)[..|b|];
  }

  /**
    Exactly the texts that open to a payload: it decodes before the first dot, and its tag under
    that context after it.
   */
  lemma OpenedExactly(h: Host, sign: seq<byte> -> seq<byte>, context: string, value: string, payload: seq<byte>)
    ensures Opened(h, sign, context, value) == Some(payload) <==>
            exists head, tail :: value == head + ['.'] + tail && Carries(h, sign, context, payload, head, tail)
  {
    hide IndexOf, Tag;
    if Opened(h, sign, context, value) == Some(payload) {
      var at := IndexOf(value, '.');
      CutAt(value, at);
      assert Carries(h, sign, context, payload, value[..at], value[at + 1..]);
    }
    forall head, tail | value == head + ['.'] + tail && Carries(h, sign, context, payload, head, tail)
      ensures Opened(h, sign, context, value) == Some(payload)
    {
      DotBetween(head, tail);
    }
  }

  lemma CutAt(value: string, at: nat)
    requires at < |value| && value[at] == '.'
    ensures value == value[..at] + ['.'] + value[at + 1..]
  {}

  lemma DotBetween(head: string, tail: string)
    requires '.' !in head
    ensures var value := head + ['.'] + tail;
            && IndexOf(value, '.') == |head| < |value|
            && value[..|head|] == head && value[|head| + 1..] == tail
  {
    IndexOfSeparator(head, '.', tail);
  }

  predicate Carries(h: Host, sign: seq<byte> -> seq<byte>, context: string, payload: seq<byte>, head: string,
                    tail: string) {
    && head != "" && '.' !in head && tail != ""
    && h.fromBase64(head) == Some(payload) && h.fromBase64(tail) == Some(Tag(h, sign, context, payload))
  }

  /** Two contexts can cover the same bytes, under some payloads, exactly when one begins the other. */
  lemma ContextsCollide(h: Host, c: string, d: string)
    ensures (exists p, q: seq<byte> :: h.utf8(c) + p == h.utf8(d) + q) <==>
              h.utf8(c) <= h.utf8(d) || h.utf8(d) <= h.utf8(c)
  {
    var a, b := h.utf8(c), h.utf8(d);
    forall p, q: seq<byte> | a + p == b + q ensures a <= b || b <= a {
      OneBeginsTheOther(a, p, b, q);
    }
    if a <= b {
      assert a + b[|a|..] == b + [];
    }
    if b <= a {
      assert a + [] == b + a[|b|..];
    }
  }

  lemma OneBeginsTheOther(a: seq<byte>, p: seq<byte>, b: seq<byte>, q: seq<byte>)
    requires a + p == b + q
    ensures a <= b || b <= a
  {
    var joined := a + p;
    assert joined[..|a|] == a && joined[..|b|] == b;
    assert |a| <= |b| ==> b[..|a|] == joined[..|a|];
    assert |b| <= |a| ==> a[..|b|] == joined[..|b|];
  }
}
