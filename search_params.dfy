/**
 * The part of WHATWG `URLSearchParams` that the pagination links use: a list
 * of name-value pairs built from the request's query, `set(name, value)`, and
 * `toString()` with the application/x-www-form-urlencoded serializer.
 */
module SearchParams {
  import opened Wrappers
  import opened JsObject

  type Pairs = seq<(string, string)>

  /** The pairs whose name is not `name`, in order. */
  function Without(list: Pairs, name: string): (r: Pairs)
    ensures name !in Keys(r)
  {
    if list == [] then []
    else if list[0].0 == name then Without(list[1..], name)
    else [list[0]] + Without(list[1..], name)
  }

  /** `get(name)`: the value of the first pair named `name`. */
  function Lookup(list: Pairs, name: string): (r: Option<string>)
    ensures r.Some? <==> name in Keys(list)
  {
    if list == [] then None
    else if list[0].0 == name then Some(list[0].1)
    else Lookup(list[1..], name)
  }

  /** How many pairs are named `name`. */
  function Count(list: Pairs, name: string): nat {
    if list == [] then 0 else (if list[0].0 == name then 1 else 0) + Count(list[1..], name)
  }

  function ReplaceFirst(list: Pairs, name: string, value: string): Pairs {
    if list == [] then []
    else if list[0].0 == name then [(name, value)] + Without(list[1..], name)
    else [list[0]] + ReplaceFirst(list[1..], name, value)
  }

  lemma {:induction false} WithoutCount(list: Pairs, name: string)
    ensures Count(Without(list, name), name) == 0
  {
    if list != [] {
      WithoutCount(list[1..], name);
    }
  }

  lemma {:induction false} WithoutTwice(list: Pairs, a: string, b: string)
    ensures Without(Without(list, a), b) == Without(Without(list, b), a)
  {
    if list != [] {
      WithoutTwice(list[1..], a, b);
    }
  }

  lemma {:induction false} WithoutIdempotent(list: Pairs, name: string)
    ensures Without(Without(list, name), name) == Without(list, name)
  {
    if list != [] {
      WithoutIdempotent(list[1..], name);
    }
  }

  lemma {:induction false} AppendWithout(list: Pairs, p: (string, string), name: string)
    ensures Without(list + [p], name) == Without(list, name) + (if p.0 == name then [] else [p])
  {
    if list == [] {
      assert list + [p] == [p];
    } else {
      assert (list + [p])[1..] == list[1..] + [p];
      AppendWithout(list[1..], p, name);
    }
  }

  lemma {:induction false} ReplaceFirstFacts(list: Pairs, name: string, value: string)
    requires name in Keys(list)
    ensures Lookup(ReplaceFirst(list, name, value), name) == Some(value)
    ensures Count(ReplaceFirst(list, name, value), name) == 1
    ensures Without(ReplaceFirst(list, name, value), name) == Without(list, name)
  {
    if list[0].0 == name {
      WithoutCount(list[1..], name);
      WithoutIdempotent(list[1..], name);
    } else {
      assert Keys(list) == [list[0].0] + Keys(list[1..]);
      ReplaceFirstFacts(list[1..], name, value);
    }
  }

  lemma {:induction false} LookupAppend(list: Pairs, p: (string, string))
    requires p.0 !in Keys(list)
    ensures Lookup(list + [p], p.0) == Some(p.1)
    ensures Count(list + [p], p.0) == 1
  {
    if list == [] {
      assert list + [p] == [p];
    } else {
      assert (list + [p])[1..] == list[1..] + [p];
      assert Keys(list) == [list[0].0] + Keys(list[1..]);
      LookupAppend(list[1..], p);
    }
  }

  /**
   * `set(name, value)`: afterwards exactly one pair is named `name`, it holds
   * `value`, and the pairs under every other name are the same as before, in
   * the same order.
   */
  function Set(list: Pairs, name: string, value: string): (r: Pairs)
    ensures Lookup(r, name) == Some(value)
    ensures Count(r, name) == 1
    ensures Without(r, name) == Without(list, name)
  {
    if name in Keys(list) then
      ReplaceFirstFacts(list, name, value);
      ReplaceFirst(list, name, value)
    else
      LookupAppend(list, (name, value));
      AppendWithout(list, (name, value), name);
      list + [(name, value)]
  }

  /** A pair under another name reads the same after `set`. */
  lemma {:induction false} LookupWithout(list: Pairs, name: string, other: string)
    requires other != name
    ensures Lookup(Without(list, name), other) == Lookup(list, other)
  {
    if list != [] {
      LookupWithout(list[1..], name, other);
    }
  }

  lemma SetLookupOther(list: Pairs, name: string, value: string, other: string)
    requires other != name
    ensures Lookup(Set(list, name, value), other) == Lookup(list, other)
  {
    LookupWithout(Set(list, name, value), name, other);
    LookupWithout(list, name, other);
  }

  // ----- serialization -----

  /** The characters the form-urlencoded serializer leaves as they are. */
  predicate IsUnreserved(c: char) {
    ('a' <= c <= 'z') || ('A' <= c <= 'Z') || ('0' <= c <= '9') || c == '*' || c == '-' || c == '.' || c == '_'
  }

  /** The UTF-8 bytes of a code point. */
  function Utf8(c: char): (bs: seq<int>)
    ensures 1 <= |bs| <= 4 && forall i :: 0 <= i < |bs| ==> 0 <= bs[i] < 256
  {
    var k := c as int;
    if k < 0x80 then [k]
    else if k < 0x800 then [0xC0 + k / 64, 0x80 + k % 64]
    else if k < 0x10000 then [0xE0 + k / 4096, 0x80 + (k / 64) % 64, 0x80 + k % 64]
    else [0xF0 + k / 262144, 0x80 + (k / 4096) % 64, 0x80 + (k / 64) % 64, 0x80 + k % 64]
  }

  function HexDigit(d: int): (c: char)
    requires 0 <= d < 16
    ensures ('0' <= c <= '9') || ('A' <= c <= 'F')
  {
    if d < 10 then ('0' as int + d) as char else ('A' as int + d - 10) as char
  }

  function PercentEncode(bs: seq<int>): (s: string)
    requires forall i :: 0 <= i < |bs| ==> 0 <= bs[i] < 256
    ensures |s| == 3 * |bs|
  {
    if bs == [] then [] else ['%', HexDigit(bs[0] / 16), HexDigit(bs[0] % 16)] + PercentEncode(bs[1..])
  }

  function EncodeChar(c: char): string {
    if IsUnreserved(c) then [c]
    else if c == ' ' then "+"
    else PercentEncode(Utf8(c))
  }

  /** The application/x-www-form-urlencoded byte serializer, one code point at a time. */
  function FormEncode(s: string): string {
    if s == [] then [] else EncodeChar(s[0]) + FormEncode(s[1..])
  }

  function PairText(p: (string, string)): string {
    FormEncode(p.0) + "=" + FormEncode(p.1)
  }

  /**
   * `toString()`: the encoded pairs joined by '&'. Since names and values
   * are encoded, the text holds one '=' per pair and one '&' between pairs.
   */
  function Serialize(list: Pairs): (s: string)
    ensures list == [] ==> s == ""
    ensures list != [] ==> multiset(s)['&'] == |list| - 1 && multiset(s)['='] == |list|
  {
    if list == [] then ""
    else
      PairTextSeparators(list[0]);
      if |list| == 1 then PairText(list[0])
      else PairText(list[0]) + "&" + Serialize(list[1..])
  }

  /** One encoded pair holds one '=' and no '&'. */
  lemma PairTextSeparators(p: (string, string))
    ensures multiset(PairText(p))['&'] == 0 && multiset(PairText(p))['='] == 1
  {
    var name, value := FormEncode(p.0), FormEncode(p.1);
    FormEncodeIsEncoded(p.0);
    FormEncodeIsEncoded(p.1);
    assert '&' !in multiset(name) && '=' !in multiset(name);
    assert '&' !in multiset(value) && '=' !in multiset(value);
    assert multiset(PairText(p)) == multiset(name) + multiset("=") + multiset(value);
    assert multiset("=") == multiset{'='};
  }

  /** What an encoded name or value may contain. */
  predicate IsEncodedChar(c: char) {
    IsUnreserved(c) || c == '+' || c == '%' || ('A' <= c <= 'F')
  }

  predicate IsEncoded(s: string) {
    forall i :: 0 <= i < |s| ==> IsEncodedChar(s[i])
  }

  lemma {:induction false} PercentEncodeIsEncoded(bs: seq<int>)
    requires forall i :: 0 <= i < |bs| ==> 0 <= bs[i] < 256
    ensures IsEncoded(PercentEncode(bs))
  {
    if bs != [] {
      PercentEncodeIsEncoded(bs[1..]);
    }
  }

  /**
   * An encoded name or value never contains '&' or '=', so the pairs of the
   * serialized query can be told apart again.
   */
  lemma {:induction false} FormEncodeIsEncoded(s: string)
    ensures IsEncoded(FormEncode(s))
    ensures '&' !in FormEncode(s) && '=' !in FormEncode(s)
  {
    if s != [] {
      FormEncodeIsEncoded(s[1..]);
      EncodeCharIsEncoded(s[0]);
      EncodedConcat(EncodeChar(s[0]), FormEncode(s[1..]));
    }
    EncodedHasNoSeparators(FormEncode(s));
  }

  lemma EncodeCharIsEncoded(c: char)
    ensures IsEncoded(EncodeChar(c))
  {
    if !IsUnreserved(c) && c != ' ' {
      PercentEncodeIsEncoded(Utf8(c));
    }
  }

  lemma EncodedConcat(a: string, b: string)
    requires IsEncoded(a) && IsEncoded(b)
    ensures IsEncoded(a + b)
  {
  }

  lemma EncodedHasNoSeparators(s: string)
    requires IsEncoded(s)
    ensures '&' !in s && '=' !in s
  {
  }

  /** Text made of unreserved characters serializes as itself. */
  lemma {:induction false} FormEncodeUnreserved(s: string)
    requires forall i :: 0 <= i < |s| ==> IsUnreserved(s[i])
    ensures FormEncode(s) == s
  {
    if s != [] {
      FormEncodeUnreserved(s[1..]);
    }
  }
}
