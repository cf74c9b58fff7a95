/** The handful of Python string operations the core relies on: `str.strip()`,
    `str.upper()`, `str.split()` with no argument and `str.replace("|", "")`,
    with `JoinSpace`, joining by single spaces, to state what word wrapping keeps. */
module Text {

  /** The characters Python's `str.isspace()` accepts, which are the ones
      `strip()` and `split()` remove: tab to carriage return, the four
      information separators, space, NEL, no-break space, the Ogham space mark,
      the spaces from en quad to hair space, the line and paragraph
      separators, the narrow no-break space, the medium mathematical space and
      the ideographic space. */
  predicate IsSpace(c: char) {
    || ('\t' <= c <= '\r')
    || ('\U{001C}' <= c <= ' ')
    || c == '\U{0085}' || c == '\U{00A0}' || c == '\U{1680}'
    || ('\U{2000}' <= c <= '\U{200A}')
    || c == '\U{2028}' || c == '\U{2029}' || c == '\U{202F}' || c == '\U{205F}' || c == '\U{3000}'
  }

  ghost predicate AllSpace(s: string) {
    forall k :: 0 <= k < |s| ==> IsSpace(s[k])
  }

  /** A string with no whitespace at either end: what `strip()` returns. */
  ghost predicate IsStripped(s: string) {
    s == "" || (!IsSpace(s[0]) && !IsSpace(s[|s| - 1]))
  }

  function TrimLeft(s: string): (r: string)
    ensures |r| <= |s| && r == s[|s| - |r|..]
    ensures forall k :: 0 <= k < |s| - |r| ==> IsSpace(s[k])
    ensures r == "" || !IsSpace(r[0])
  {
    if s != "" && IsSpace(s[0]) then
      var r := TrimLeft(s[1..]);
      TrimFirst(s, r);
      r
    else s
  }

  /** One more leading space in front of what `TrimLeft(s[1..])` promises. */
  lemma TrimFirst(s: string, r: string)
    requires s != "" && IsSpace(s[0])
    requires |r| <= |s| - 1 && r == s[1..][|s| - 1 - |r|..]
    requires forall k :: 0 <= k < |s| - 1 - |r| ==> IsSpace(s[1..][k])
    ensures r == s[|s| - |r|..]
    ensures forall k :: 0 <= k < |s| - |r| ==> IsSpace(s[k])
  {
    assert s[1..][|s| - 1 - |r|..] == s[|s| - |r|..];
    assert forall k :: 1 <= k < |s| ==> s[k] == s[1..][k - 1];
  }

  /** `s` is `r` with nothing but whitespace before and after it. */
  ghost predicate Padded(s: string, r: string) {
    exists i :: 0 <= i <= |s| - |r| && AllSpace(s[..i]) && s[i..i + |r|] == r && AllSpace(s[i + |r|..])
  }

  /** Python `s.strip()`: `s` less its leading and trailing whitespace. */
  function Strip(s: string): (r: string)
    ensures IsStripped(r)
    ensures r == "" <==> AllSpace(s)
    ensures Padded(s, r)
    decreases |s|
  {
    if s != "" && IsSpace(s[0]) then
      var r := Strip(s[1..]);
      PadFront(s, s[1..], r);
      r
    else if s != "" && IsSpace(s[|s| - 1]) then
      var r := Strip(s[..|s| - 1]);
      PadBack(s, s[..|s| - 1], r);
      r
    else
      PadNone(s);
      s
  }

  /** A leading space added to `p` keeps `r` the stripped form. */
  lemma PadFront(s: string, p: string, r: string)
    requires s != "" && IsSpace(s[0]) && p == s[1..]
    requires Padded(p, r) && (r == "" <==> AllSpace(p))
    ensures Padded(s, r) && (r == "" <==> AllSpace(s))
  {
    var i :| 0 <= i <= |p| - |r| && AllSpace(p[..i]) && p[i..i + |r|] == r && AllSpace(p[i + |r|..]);
    assert forall k :: 0 < k < |s| ==> s[k] == p[k - 1];
    assert AllSpace(s[..i + 1]) by {
      var u := s[..i + 1];
      assert forall k :: 0 < k < |u| ==> u[k] == p[..i][k - 1];
    }
    assert s[i + 1..i + 1 + |r|] == r;
    assert s[i + 1 + |r|..] == p[i + |r|..];
  }

  /** A trailing space added to `p` keeps `r` the stripped form. */
  lemma PadBack(s: string, p: string, r: string)
    requires s != "" && IsSpace(s[|s| - 1]) && p == s[..|s| - 1]
    requires Padded(p, r) && (r == "" <==> AllSpace(p))
    ensures Padded(s, r) && (r == "" <==> AllSpace(s))
  {
    var i :| 0 <= i <= |p| - |r| && AllSpace(p[..i]) && p[i..i + |r|] == r && AllSpace(p[i + |r|..]);
    assert forall k :: 0 <= k < |p| ==> s[k] == p[k];
    assert s[..i] == p[..i];
    assert s[i..i + |r|] == r;
    assert AllSpace(s[i + |r|..]) by {
      var u := s[i + |r|..];
      var v := p[i + |r|..];
      assert forall k :: 0 <= k < |v| ==> u[k] == v[k];
    }
  }

  /** A string with no whitespace at either end strips to itself. */
  lemma PadNone(s: string)
    requires s == "" || (!IsSpace(s[0]) && !IsSpace(s[|s| - 1]))
    ensures Padded(s, s) && (s == "" <==> AllSpace(s))
  {
    assert s[..0] == "" && s[0..|s|] == s && s[|s|..] == "";
  }

  /** Stripping is idempotent: a stripped string is left as it is. */
  lemma {:induction false} StripStripped(s: string)
    requires IsStripped(s)
    ensures Strip(s) == s
  {
  }

  predicate IsLower(c: char) {
    'a' <= c <= 'z'
  }

  function UpperChar(c: char): (u: char)
    ensures !IsLower(u)
    ensures IsSpace(u) <==> IsSpace(c)
    ensures IsLower(c) || u == c
    ensures IsLower(c) ==> u as int == c as int - 32
  {
    if IsLower(c) then (c as int - 32) as char else c
  }

  /** Python `s.upper()`, restricted to the ASCII letters. */
  function Upper(s: string): (r: string)
    ensures |r| == |s|
    ensures forall k :: 0 <= k < |r| ==> !IsLower(r[k])
    ensures forall k :: 0 <= k < |r| ==> (IsSpace(r[k]) <==> IsSpace(s[k]))
    ensures forall k :: 0 <= k < |r| ==> IsLower(s[k]) || r[k] == s[k]
    ensures forall k :: 0 <= k < |r| ==> IsLower(s[k]) ==> r[k] as int == s[k] as int - 32
  {
    seq(|s|, k requires 0 <= k < |s| => UpperChar(s[k]))
  }

  /** `(value or "").strip().upper()`, the identity normalisation used both by the
      poll loop and by the web server's lookups. */
  function Normalize(s: string): (r: string)
    ensures IsStripped(r)
    ensures forall k :: 0 <= k < |r| ==> !IsLower(r[k])
    ensures r == "" <==> AllSpace(s)
    ensures Padded(Upper(s), r)
  {
    var t := Strip(s);
    UpperPadded(s, t);
    Upper(t)
  }

  /** Upper-casing keeps whitespace where it is, so it commutes with removing
      the whitespace at both ends. */
  lemma UpperPadded(s: string, t: string)
    requires Padded(s, t)
    ensures Padded(Upper(s), Upper(t))
  {
    var i :| 0 <= i <= |s| - |t| && AllSpace(s[..i]) && s[i..i + |t|] == t && AllSpace(s[i + |t|..]);
    var u := Upper(s);
    UpperSlice(s, 0, i);
    UpperSlice(s, i, i + |t|);
    UpperSlice(s, i + |t|, |s|);
    assert s[0..i] == s[..i] && u[0..i] == u[..i];
    assert s[i + |t|..|s|] == s[i + |t|..] && u[i + |t|..|s|] == u[i + |t|..];
  }

  /** Upper-casing works character by character. */
  lemma UpperSlice(s: string, i: int, j: int)
    requires 0 <= i <= j <= |s|
    ensures Upper(s)[i..j] == Upper(s[i..j])
  {
  }

  /** What `Normalize` returns: stripped, with no lower-case letter. */
  ghost predicate Normalized(s: string) {
    IsStripped(s) && forall k :: 0 <= k < |s| ==> !IsLower(s[k])
  }

  lemma UpperOfUpper(s: string)
    requires forall k :: 0 <= k < |s| ==> !IsLower(s[k])
    ensures Upper(s) == s
  {
  }

  /** Normalising twice changes nothing. */
  lemma NormalizeIdempotent(s: string)
    ensures Normalize(Normalize(s)) == Normalize(s)
  {
    var n := Normalize(s);
    StripStripped(n);
    UpperOfUpper(n);
  }

  predicate IsWord(w: string) {
    w != "" && forall k :: 0 <= k < |w| ==> !IsSpace(w[k])
  }

  function WordLen(s: string): (n: nat)
    ensures n <= |s|
    ensures forall k :: 0 <= k < n ==> !IsSpace(s[k])
    ensures n == |s| || IsSpace(s[n])
  {
    if s == "" || IsSpace(s[0]) then 0 else 1 + WordLen(s[1..])
  }

  ghost predicate AllWords(ws: seq<string>) {
    forall k :: 0 <= k < |ws| ==> IsWord(ws[k])
  }

  lemma AllWordsCons(w: string, ws: seq<string>)
    requires IsWord(w) && AllWords(ws)
    ensures AllWords([w] + ws)
  {
    var r := [w] + ws;
    forall k | 0 <= k < |r| ensures IsWord(r[k]) {
      if k > 0 {
        assert r[k] == ws[k - 1];
      }
    }
  }

  lemma LeadingWord(t: string)
    requires t != "" && !IsSpace(t[0])
    ensures IsWord(t[..WordLen(t)])
  {
    var n := WordLen(t);
    var w := t[..n];
    forall k | 0 <= k < |w| ensures !IsSpace(w[k]) {
      assert w[k] == t[k];
    }
  }

  /** `s` reads as the words `ws` separated by whitespace: nothing but whitespace
      when there are none, otherwise optional whitespace, the first word ending at
      whitespace or at the end, and then the rest of `s` reading as the other words. */
  ghost predicate SplitsInto(s: string, ws: seq<string>)
    decreases |ws|
  {
    if ws == [] then AllSpace(s)
    else exists i, j :: 0 <= i < j <= |s| && AllSpace(s[..i]) && s[i..j] == ws[0]
                        && IsWord(ws[0]) && (j == |s| || IsSpace(s[j])) && SplitsInto(s[j..], ws[1..])
  }

  /** Python `s.split()`: the maximal runs of non-whitespace characters, in order. */
  function SplitWords(s: string): (ws: seq<string>)
    ensures AllWords(ws)
    ensures ws == [] <==> AllSpace(s)
    ensures SplitsInto(s, ws)
    decreases |s|
  {
    var t := TrimLeft(s);
    if t == "" then
      []
    else
      var n := WordLen(t);
      var rest := SplitWords(t[n..]);
      SplitCons(s, |s| - |t|, n, rest);
      [t[..n]] + rest
  }

  /** A word of `t == s[i..]`, after whitespace, followed by words `rest` that
      split what follows it, gives the words of `s`. */
  lemma SplitCons(s: string, i: nat, n: nat, rest: seq<string>)
    requires 0 < n && i + n <= |s|
    requires forall k :: 0 <= k < i ==> IsSpace(s[k])
    requires forall k :: 0 <= k < n ==> !IsSpace(s[i..][k])
    requires i + n == |s| || IsSpace(s[i..][n])
    requires AllWords(rest) && SplitsInto(s[i..][n..], rest)
    ensures AllWords([s[i..][..n]] + rest)
    ensures !AllSpace(s)
    ensures SplitsInto(s, [s[i..][..n]] + rest)
  {
    assert IsWord(s[i..][..n]) by {
      assert forall k :: 0 <= k < n ==> s[i..][..n][k] == s[i..][k];
    }
    AllWordsCons(s[i..][..n], rest);
    assert s[i..][0] == s[i];
    SplitStep(s, i, n, rest);
  }

  /** A word of `t == s[i..]`, after whitespace, followed by a split of what
      follows it, is a split of `s`. */
  lemma SplitStep(s: string, i: nat, n: nat, rest: seq<string>)
    requires 0 < n && i + n <= |s|
    requires forall k :: 0 <= k < i ==> IsSpace(s[k])
    requires forall k :: 0 <= k < n ==> !IsSpace(s[i..][k])
    requires i + n == |s| || IsSpace(s[i..][n])
    requires SplitsInto(s[i..][n..], rest)
    ensures SplitsInto(s, [s[i..][..n]] + rest)
  {
    var ws := [s[i..][..n]] + rest;
    assert s[i..][n..] == s[i + n..];
    assert s[i..][..n] == s[i..i + n];
    assert AllSpace(s[..i]) by {
      assert forall k :: 0 <= k < i ==> s[..i][k] == s[k];
    }
    assert IsWord(ws[0]) by {
      assert forall k :: 0 <= k < n ==> ws[0][k] == s[i..][k];
    }
    assert i + n == |s| || IsSpace(s[i + n]) by {
      if i + n < |s| {
        assert s[i..][n] == s[i + n];
      }
    }
    assert ws[1..] == rest;
    SplitsIntoCons(s, i, i + n, ws);
  }

  lemma SplitsIntoCons(s: string, i: nat, j: nat, ws: seq<string>)
    requires ws != [] && i < j <= |s| && AllSpace(s[..i]) && s[i..j] == ws[0] && IsWord(ws[0])
    requires j == |s| || IsSpace(s[j])
    requires SplitsInto(s[j..], ws[1..])
    ensures SplitsInto(s, ws)
  {
  }

  /** `" ".join(xs)`. */
  function JoinSpace(xs: seq<string>): string {
    if |xs| == 0 then ""
    else if |xs| == 1 then xs[0]
    else JoinSpace(xs[..|xs| - 1]) + " " + xs[|xs| - 1]
  }

  /** Joining two non-empty runs of pieces puts one space between the two joins. */
  lemma {:induction false} JoinSpaceAppend(a: seq<string>, b: seq<string>)
    requires a != [] && b != []
    ensures JoinSpace(a + b) == JoinSpace(a) + " " + JoinSpace(b)
    decreases |b|
  {
    var ab := a + b;
    assert ab[..|ab| - 1] == a + b[..|b| - 1];
    if |b| == 1 {
      assert ab[..|ab| - 1] == a;
    } else {
      JoinSpaceAppend(a, b[..|b| - 1]);
    }
  }

  predicate NoBar(s: string) {
    forall k :: 0 <= k < |s| ==> s[k] != '|'
  }

  predicate OnlyBars(s: string) {
    forall k :: 0 <= k < |s| ==> s[k] == '|'
  }

  /** Python `s.replace("|", "")`. */
  function RemoveBars(s: string): (r: string)
    ensures r == "" <==> OnlyBars(s)
  {
    if s == "" then ""
    else if s[0] == '|' then RemoveBars(s[1..])
    else [s[0]] + RemoveBars(s[1..])
  }

  lemma {:induction false} RemoveBarsConcat(a: string, b: string)
    ensures RemoveBars(a + b) == RemoveBars(a) + RemoveBars(b)
    decreases |a|
  {
    if a != "" {
      assert (a + b)[1..] == a[1..] + b;
      RemoveBarsConcat(a[1..], b);
    } else {
      assert a + b == b;
    }
  }

  lemma RemoveBarsBar(x: string)
    ensures RemoveBars("|" + x) == RemoveBars(x)
  {
    assert ("|" + x)[1..] == x;
  }

  /** The position of the first '|' in `s`, or `|s|` when there is none. */
  function FirstBar(s: string): (n: nat)
    ensures n <= |s|
    ensures NoBar(s[..n])
    ensures n < |s| ==> s[n] == '|'
  {
    if s == "" || s[0] == '|' then 0
    else
      var n := 1 + FirstBar(s[1..]);
      assert s[..n] == [s[0]] + s[1..][..n - 1];
      n
  }

  lemma {:induction false} FirstBarOf(a: string, b: string)
    requires NoBar(a)
    ensures FirstBar(a + "|" + b) == |a|
    decreases |a|
  {
    var x := a + "|" + b;
    if a != "" {
      assert x[0] == a[0];
      assert x[1..] == a[1..] + "|" + b;
      FirstBarOf(a[1..], b);
    }
  }

  /** Splitting at the first '|' is unambiguous when the head holds no '|'. */
  lemma SplitAtFirstBar(a: string, b: string, a': string, b': string)
    requires NoBar(a) && NoBar(a')
    requires a + "|" + b == a' + "|" + b'
    ensures a == a' && b == b'
  {
    var x := a + "|" + b;
    FirstBarOf(a, b);
    FirstBarOf(a', b');
    assert a == x[..|a|] == a';
    assert b == x[|a| + 1..] == b';
  }

  /** "a|b|c" determines a, b and c when a and b hold no '|'. */
  lemma BarJoinInjective(a: string, b: string, c: string, a': string, b': string, c': string)
    requires NoBar(a) && NoBar(b) && NoBar(a') && NoBar(b')
    ensures a + "|" + b + "|" + c == a' + "|" + b' + "|" + c' <==> a == a' && b == b' && c == c'
  {
    if a + "|" + b + "|" + c == a' + "|" + b' + "|" + c' {
      assert a + "|" + b + "|" + c == a + "|" + (b + "|" + c);
      assert a' + "|" + b' + "|" + c' == a' + "|" + (b' + "|" + c');
      SplitAtFirstBar(a, b + "|" + c, a', b' + "|" + c');
      SplitAtFirstBar(b, c, b', c');
    }
  }

  /** Removing the bars from "a|b|c" leaves nothing exactly when a, b and c are
      made of bars only. */
  lemma RemoveBarsJoin(a: string, b: string, c: string)
    ensures RemoveBars(a + "|" + b + "|" + c) == "" <==> OnlyBars(a) && OnlyBars(b) && OnlyBars(c)
  {
    var bc := b + "|" + c;
    assert a + "|" + b + "|" + c == a + ("|" + bc);
    assert bc == b + ("|" + c);
    RemoveBarsConcat(a, "|" + bc);
    RemoveBarsBar(bc);
    RemoveBarsConcat(b, "|" + c);
    RemoveBarsBar(c);
  }
}
