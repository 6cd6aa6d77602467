/**
 * A reader for query strings of the form `?k1=v1&k2=v2`: drop the leading
 * '?', cut at every '&', and cut each piece at its first '='. It is the
 * receiving side of the query strings the Bitkub client writes, and the
 * reference against which those writers are proved.
 */
module UrlQuery {

  type Param = (string, string)

  /** Cuts `s` at every occurrence of `sep`; n separators give n + 1 pieces. */
  function Split(s: string, sep: char): (parts: seq<string>)
    ensures |parts| >= 1
    decreases |s|
  {
    if s == [] then [""]
    else
      var rest := Split(s[1..], sep);
      if s[0] == sep then [""] + rest else [[s[0]] + rest[0]] + rest[1..]
  }

  /** Cuts one piece at its first '='; a piece without '=' is a key with an empty value. */
  function KeyValue(piece: string): Param
    decreases |piece|
  {
    if piece == [] then ("", "")
    else if piece[0] == '=' then ("", piece[1..])
    else var kv := KeyValue(piece[1..]); ([piece[0]] + kv.0, kv.1)
  }

  function Params(pieces: seq<string>): (ps: seq<Param>)
    ensures |ps| == |pieces|
    decreases |pieces|
  {
    if pieces == [] then [] else [KeyValue(pieces[0])] + Params(pieces[1..])
  }

  function ParseQuery(q: string): seq<Param>
  {
    if q == "" then [] else Params(Split(if q[0] == '?' then q[1..] else q, '&'))
  }

  function Field(p: Param): string { p.0 + "=" + p.1 }

  function Join(ps: seq<Param>): string
    requires ps != []
    decreases |ps|
  {
    if |ps| == 1 then Field(ps[0]) else Field(ps[0]) + "&" + Join(ps[1..])
  }

  /** The canonical spelling of a parameter list: `?` followed by `k=v` pairs joined by `&`. */
  function Render(ps: seq<Param>): string
  {
    if ps == [] then "" else "?" + Join(ps)
  }

  /** A parameter that survives a render and a parse: no '&' anywhere, no '=' in the key. */
  predicate Separable(p: Param) { '&' !in p.0 && '=' !in p.0 && '&' !in p.1 }

  lemma {:induction false} SplitWhole(a: string, sep: char)
    requires sep !in a
    ensures Split(a, sep) == [a]
    decreases |a|
  {
    if a != [] {
      SplitWhole(a[1..], sep);
      assert [a[0]] + a[1..] == a;
    }
  }

  lemma {:induction false} SplitFirst(a: string, b: string, sep: char)
    requires sep !in a
    ensures Split(a + [sep] + b, sep) == [a] + Split(b, sep)
    decreases |a|
  {
    if a == [] {
      assert a + [sep] + b == [sep] + b;
      assert ([sep] + b)[1..] == b;
    } else {
      assert (a + [sep] + b)[1..] == a[1..] + [sep] + b;
      SplitFirst(a[1..], b, sep);
      assert [a[0]] + a[1..] == a;
    }
  }

  lemma {:induction false} KeyValueOfField(k: string, v: string)
    requires '=' !in k
    ensures KeyValue(k + "=" + v) == (k, v)
    decreases |k|
  {
    if k == [] {
      assert k + "=" + v == "=" + v;
    } else {
      assert (k + "=" + v)[1..] == k[1..] + "=" + v;
      KeyValueOfField(k[1..], v);
      assert [k[0]] + k[1..] == k;
    }
  }

  lemma {:induction false} ParseJoin(ps: seq<Param>)
    requires ps != []
    requires forall i :: 0 <= i < |ps| ==> Separable(ps[i])
    ensures Params(Split(Join(ps), '&')) == ps
    decreases |ps|
  {
    var f := Field(ps[0]);
    assert '&' !in f by {
      assert f == ps[0].0 + "=" + ps[0].1;
    }
    KeyValueOfField(ps[0].0, ps[0].1);
    if |ps| == 1 {
      SplitWhole(f, '&');
    } else {
      SplitFirst(f, Join(ps[1..]), '&');
      assert Join(ps) == f + ['&'] + Join(ps[1..]);
      ParseJoin(ps[1..]);
      assert [ps[0]] + ps[1..] == ps;
    }
  }

  lemma {:induction false} JoinSnoc(ps: seq<Param>, p: Param)
    requires ps != []
    ensures Join(ps + [p]) == Join(ps) + "&" + Field(p)
    decreases |ps|
  {
    if |ps| == 1 {
      assert (ps + [p])[1..] == [p];
    } else {
      assert (ps + [p])[1..] == ps[1..] + [p];
      JoinSnoc(ps[1..], p);
    }
  }

  /** Appending a parameter appends `&k=v` to the rendering. */
  lemma RenderSnoc(ps: seq<Param>, p: Param)
    requires ps != []
    ensures Render(ps + [p]) == Render(ps) + "&" + Field(p)
  {
    JoinSnoc(ps, p);
  }

  /** Reading back a rendered parameter list gives the list, in order. */
  lemma ParseRender(ps: seq<Param>)
    requires forall i :: 0 <= i < |ps| ==> Separable(ps[i])
    ensures ParseQuery(Render(ps)) == ps
  {
    if ps != [] {
      var q := Render(ps);
      assert q[1..] == Join(ps);
      ParseJoin(ps);
    }
  }
}
