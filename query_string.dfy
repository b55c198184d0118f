/** The `key=value&key=value` query string of a URL, written and read back. The client only
    writes one; reading it is how the URL it builds is shown to carry exactly the parameters
    intended, in the order they were written. */
module QueryString {
  import opened Wrappers

  type Param = (string, string)

  /** The parts with one separator between neighbours. */
  function Join(parts: seq<string>, sep: char): (s: string)
    requires |parts| > 0
    decreases |parts|
  {
    if |parts| == 1 then parts[0] else parts[0] + [sep] + Join(parts[1..], sep)
  }

  /** The maximal separator-free pieces of `s`, in order; there is one more piece than separators. */
  function Split(s: string, sep: char): (parts: seq<string>)
    ensures |parts| > 0
    decreases |s|
  {
    if s == [] then [""]
    else
      var rest := Split(s[1..], sep);
      if s[0] == sep then [""] + rest else [[s[0]] + rest[0]] + rest[1..]
  }

  function EncodePair(p: Param): string
  {
    p.0 + "=" + p.1
  }

  /** A piece read as a key and a value, split at its first `=`; a piece without one is a key
      with an empty value. */
  function DecodePair(text: string): (p: Param)
    decreases |text|
  {
    if text == [] then ("", "")
    else if text[0] == '=' then ("", text[1..])
    else
      var (k, v) := DecodePair(text[1..]);
      ([text[0]] + k, v)
  }

  function EncodeAll(ps: seq<Param>): (parts: seq<string>)
    ensures |parts| == |ps|
  {
    if ps == [] then [] else [EncodePair(ps[0])] + EncodeAll(ps[1..])
  }

  function DecodeAll(parts: seq<string>): (ps: seq<Param>)
    ensures |ps| == |parts|
  {
    if parts == [] then [] else [DecodePair(parts[0])] + DecodeAll(parts[1..])
  }

  function Encode(ps: seq<Param>): string
    requires |ps| > 0
  {
    Join(EncodeAll(ps), '&')
  }

  function Parse(query: string): seq<Param>
  {
    DecodeAll(Split(query, '&'))
  }

  /** Parameters that survive the round trip: no key holds `=` or `&`, no value holds `&`. */
  predicate Plain(ps: seq<Param>)
  {
    forall i :: 0 <= i < |ps| ==> '=' !in ps[i].0 && '&' !in ps[i].0 && '&' !in ps[i].1
  }

  function Keys(ps: seq<Param>): (keys: seq<string>)
    ensures |keys| == |ps|
  {
    if ps == [] then [] else [ps[0].0] + Keys(ps[1..])
  }

  /** The value of the first parameter named `key`. */
  function Lookup(ps: seq<Param>, key: string): Option<string>
  {
    if ps == [] then None else if ps[0].0 == key then Some(ps[0].1) else Lookup(ps[1..], key)
  }

  lemma {:induction false} SplitPrefix(w: string, t: string, sep: char)
    requires sep !in w
    ensures Split(w + t, sep) == [w + Split(t, sep)[0]] + Split(t, sep)[1..]
    decreases |w|
  {
    if w == [] {
      var parts := Split(t, sep);
      assert w + t == t && w + parts[0] == parts[0];
      assert [parts[0]] + parts[1..] == parts;
    } else {
      assert (w + t)[0] == w[0] && (w + t)[1..] == w[1..] + t;
      SplitPrefix(w[1..], t, sep);
      assert [w[0]] + (w[1..] + Split(t, sep)[0]) == w + Split(t, sep)[0];
    }
  }

  /** Splitting undoes joining when no part holds the separator. */
  lemma {:induction false} SplitJoin(parts: seq<string>, sep: char)
    requires |parts| > 0
    requires forall i :: 0 <= i < |parts| ==> sep !in parts[i]
    ensures Split(Join(parts, sep), sep) == parts
    decreases |parts|
  {
    if |parts| == 1 {
      SplitPrefix(parts[0], [], sep);
      assert parts[0] + [] == parts[0];
    } else {
      var rest := Join(parts[1..], sep);
      assert Join(parts, sep) == parts[0] + ([sep] + rest);
      SplitPrefix(parts[0], [sep] + rest, sep);
      assert ([sep] + rest)[1..] == rest;
      SplitJoin(parts[1..], sep);
      assert parts[0] + "" == parts[0];
    }
  }

  lemma {:induction false} DecodeEncodePair(p: Param)
    requires '=' !in p.0
    ensures DecodePair(EncodePair(p)) == p
    decreases |p.0|
  {
    var (k, v) := p;
    if k == [] {
      assert EncodePair(p) == "=" + v;
    } else {
      assert EncodePair(p)[1..] == EncodePair((k[1..], v));
      DecodeEncodePair((k[1..], v));
      assert [k[0]] + k[1..] == k;
    }
  }

  lemma {:induction false} DecodeEncodeAll(ps: seq<Param>)
    requires forall i :: 0 <= i < |ps| ==> '=' !in ps[i].0
    ensures DecodeAll(EncodeAll(ps)) == ps
    decreases |ps|
  {
    if ps != [] {
      DecodeEncodePair(ps[0]);
      DecodeEncodeAll(ps[1..]);
      assert EncodeAll(ps)[1..] == EncodeAll(ps[1..]);
    }
  }

  lemma {:induction false} EncodeAllPlain(ps: seq<Param>)
    requires Plain(ps)
    ensures forall i :: 0 <= i < |ps| ==> '&' !in EncodeAll(ps)[i]
    decreases |ps|
  {
    if ps != [] {
      EncodeAllPlain(ps[1..]);
      assert '&' !in EncodePair(ps[0]);
      forall i | 1 <= i < |ps| ensures '&' !in EncodeAll(ps)[i] {
        assert EncodeAll(ps)[i] == EncodeAll(ps[1..])[i - 1];
      }
    }
  }

  /** Reading a written query string gives back the parameters, in order. */
  lemma ParseEncode(ps: seq<Param>)
    requires |ps| > 0 && Plain(ps)
    ensures Parse(Encode(ps)) == ps
  {
    EncodeAllPlain(ps);
    SplitJoin(EncodeAll(ps), '&');
    DecodeEncodeAll(ps);
  }

  lemma {:induction false} JoinSnoc(parts: seq<string>, part: string, sep: char)
    requires |parts| > 0
    ensures Join(parts + [part], sep) == Join(parts, sep) + [sep] + part
    decreases |parts|
  {
    if |parts| > 1 {
      assert (parts + [part])[1..] == parts[1..] + [part];
      JoinSnoc(parts[1..], part, sep);
    }
  }

  lemma {:induction false} EncodeAllSnoc(ps: seq<Param>, p: Param)
    ensures EncodeAll(ps + [p]) == EncodeAll(ps) + [EncodePair(p)]
    decreases |ps|
  {
    if ps == [] {
      assert ps + [p] == [p];
    } else {
      assert (ps + [p])[1..] == ps[1..] + [p];
      EncodeAllSnoc(ps[1..], p);
    }
  }

  /** Writing one more parameter appends `&key=value` to the query string. */
  lemma EncodeSnoc(ps: seq<Param>, p: Param)
    requires |ps| > 0
    ensures Encode(ps + [p]) == Encode(ps) + "&" + EncodePair(p)
  {
    EncodeAllSnoc(ps, p);
    JoinSnoc(EncodeAll(ps), EncodePair(p), '&');
  }

  /** A single parameter is written as `key=value`. */
  lemma EncodeSingle(p: Param)
    ensures Encode([p]) == EncodePair(p)
  {
    assert EncodeAll([p]) == [EncodePair(p)];
  }

  lemma {:induction false} JoinAvoids(parts: seq<string>, sep: char, c: char)
    requires |parts| > 0 && c != sep
    requires forall i :: 0 <= i < |parts| ==> c !in parts[i]
    ensures c !in Join(parts, sep)
    decreases |parts|
  {
    if |parts| > 1 {
      JoinAvoids(parts[1..], sep, c);
    }
  }

  lemma {:induction false} EncodeAllAvoids(ps: seq<Param>, c: char)
    requires c != '='
    requires forall i :: 0 <= i < |ps| ==> c !in ps[i].0 && c !in ps[i].1
    ensures forall i :: 0 <= i < |ps| ==> c !in EncodeAll(ps)[i]
    decreases |ps|
  {
    if ps != [] {
      EncodeAllAvoids(ps[1..], c);
      forall i | 1 <= i < |ps| ensures c !in EncodeAll(ps)[i] {
        assert EncodeAll(ps)[i] == EncodeAll(ps[1..])[i - 1];
      }
    }
  }

  /** A character that is neither `=` nor `&` is in the query string only if some key or value
      holds it. */
  lemma EncodeAvoids(ps: seq<Param>, c: char)
    requires |ps| > 0 && c != '=' && c != '&'
    requires forall i :: 0 <= i < |ps| ==> c !in ps[i].0 && c !in ps[i].1
    ensures c !in Encode(ps)
  {
    EncodeAllAvoids(ps, c);
    JoinAvoids(EncodeAll(ps), '&', c);
  }

  lemma EncodeTwo(a: Param, b: Param)
    ensures Encode([a, b]) == EncodePair(a) + "&" + EncodePair(b)
  {
    EncodeSingle(a);
    EncodeSnoc([a], b);
    assert [a] + [b] == [a, b];
  }

  lemma EncodeThree(a: Param, b: Param, c: Param)
    ensures Encode([a, b, c]) == EncodePair(a) + "&" + EncodePair(b) + "&" + EncodePair(c)
  {
    EncodeTwo(a, b);
    EncodeSnoc([a, b], c);
    assert [a, b] + [c] == [a, b, c];
  }
}
