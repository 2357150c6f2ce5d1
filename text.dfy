/** The Python `str` operations the generator uses, restricted to ASCII:
    `split()`, `' '.join`, `strip()`, `title()` and `islower()`. */
module Text {

  /** `c.isspace()` for the ASCII range: space, tab to carriage return, and the
      four separators 0x1C to 0x1F. */
  predicate IsSpace(c: char)
  {
    c == ' ' || '\t' <= c <= '\r' || '\U{1C}' <= c <= '\U{1F}'
  }

  predicate IsUpper(c: char) { 'A' <= c <= 'Z' }

  predicate IsLowerCase(c: char) { 'a' <= c <= 'z' }

  /** A cased character, the only kind `title()` and `islower()` look at. */
  predicate IsLetter(c: char) { IsUpper(c) || IsLowerCase(c) }

  predicate IsDigit(c: char) { '0' <= c <= '9' }

  function ToUpper(c: char): (u: char)
    ensures IsLetter(u) <==> IsLetter(c)
    ensures !IsLetter(c) ==> u == c
    ensures !IsLowerCase(u)
  {
    if IsLowerCase(c) then (c as int - 'a' as int + 'A' as int) as char else c
  }

  function ToLower(c: char): (l: char)
    ensures IsLetter(l) <==> IsLetter(c)
    ensures !IsLetter(c) ==> l == c
    ensures !IsUpper(l)
  {
    if IsUpper(c) then (c as int - 'A' as int + 'a' as int) as char else c
  }

  /** Some character of `w` is a lower-case letter. */
  predicate HasLowerCase(w: string)
  {
    w != [] && (IsLowerCase(w[0]) || HasLowerCase(w[1..]))
  }

  /** Some character of `w` is an upper-case letter. */
  predicate HasUpperCase(w: string)
  {
    w != [] && (IsUpper(w[0]) || HasUpperCase(w[1..]))
  }

  /** `w.islower()`: at least one cased character, and none of them upper case. */
  predicate IsLower(w: string)
  {
    HasLowerCase(w) && !HasUpperCase(w)
  }

  /** `HasLowerCase` and `HasUpperCase` look at every character. */
  lemma {:induction false} HasCaseChars(w: string)
    ensures HasLowerCase(w) <==> exists i :: 0 <= i < |w| && IsLowerCase(w[i])
    ensures HasUpperCase(w) <==> exists i :: 0 <= i < |w| && IsUpper(w[i])
  {
    if w != [] {
      HasCaseChars(w[1..]);
      assert forall i :: 1 <= i < |w| ==> w[i] == w[1..][i - 1];
    }
  }

  /** `w.islower()` holds exactly when some character of `w` is a lower-case
      letter and none is an upper-case one. */
  lemma IsLowerChars(w: string)
    ensures IsLower(w) <==>
              (exists i :: 0 <= i < |w| && IsLowerCase(w[i])) && forall i :: 0 <= i < |w| ==> !IsUpper(w[i])
  {
    HasCaseChars(w);
  }

  /** `title()`, continuing after a character that was (`prevCased`) or was not a
      letter: a letter after a letter is lowered, any other character is raised. */
  function TitleFrom(t: string, prevCased: bool): (r: string)
    ensures |r| == |t|
    ensures forall i :: 0 <= i < |t| ==> IsLetter(r[i]) == IsLetter(t[i])
    ensures forall i :: 0 <= i < |t| && !IsLetter(t[i]) ==> r[i] == t[i]
    ensures forall i :: 0 <= i < |t| ==>
              r[i] == if (if i == 0 then prevCased else IsLetter(t[i - 1])) then ToLower(t[i]) else ToUpper(t[i])
    ensures forall i :: 0 <= i < |t| && IsLetter(t[i]) ==>
              (IsUpper(r[i]) <==> if i == 0 then !prevCased else !IsLetter(t[i - 1]))
  {
    if t == [] then []
    else [if prevCased then ToLower(t[0]) else ToUpper(t[0])] + TitleFrom(t[1..], IsLetter(t[0]))
  }

  function Title(t: string): string
  {
    TitleFrom(t, false)
  }

  /** A title-cased word is not changed by title-casing it again. */
  lemma {:induction false} TitleFromIdempotent(t: string, prevCased: bool)
    ensures TitleFrom(TitleFrom(t, prevCased), prevCased) == TitleFrom(t, prevCased)
  {
    if t != [] {
      var r := TitleFrom(t, prevCased);
      assert r[1..] == TitleFrom(t[1..], IsLetter(t[0]));
      TitleFromIdempotent(t[1..], IsLetter(t[0]));
    }
  }

  lemma TitleIdempotent(t: string)
    ensures Title(Title(t)) == Title(t)
  {
    TitleFromIdempotent(t, false);
  }

  /** Title-casing changes letters only: a character that is not a letter occurs
      in the result exactly when it occurs in the word. */
  lemma TitleKeepsNonLetters(t: string, c: char)
    requires !IsLetter(c)
    ensures c in Title(t) <==> c in t
  {
    var r := Title(t);
    if c in t {
      var i :| 0 <= i < |t| && t[i] == c;
      assert r[i] == c;
    }
    if c in r {
      var i :| 0 <= i < |r| && r[i] == c;
      assert t[i] == c;
    }
  }

  /** A piece of `split()`'s output: non-empty, no whitespace. */
  predicate IsToken(w: string)
  {
    w != [] && forall i :: 0 <= i < |w| ==> !IsSpace(w[i])
  }

  /** Every element is a token, as in `split()`'s output. */
  predicate AllTokens(ws: seq<string>)
  {
    forall i :: 0 <= i < |ws| ==> IsToken(ws[i])
  }

  /** A text that starts with a non-space character starts with a token. */
  lemma TokenPrefix(u: string)
    requires u != [] && !IsSpace(u[0])
    ensures 1 <= TokenLength(u) && IsToken(u[..TokenLength(u)])
  {
    var n := TokenLength(u);
    assert forall i :: 0 <= i < n ==> u[..n][i] == u[i];
  }

  lemma AllTokensCons(w: string, ws: seq<string>)
    ensures AllTokens([w] + ws) <==> IsToken(w) && AllTokens(ws)
  {
    var r := [w] + ws;
    assert r[0] == w;
    assert forall i :: 0 <= i < |ws| ==> r[i + 1] == ws[i];
  }

  lemma TitleKeepsToken(t: string)
    requires IsToken(t)
    ensures IsToken(Title(t))
  {
    var r := Title(t);
    forall i | 0 <= i < |r| ensures !IsSpace(r[i]) {
      if !IsLetter(t[i]) {
        assert r[i] == t[i];
      }
    }
  }

  /** `s.lstrip()`. */
  function TrimLeft(s: string): (r: string)
    ensures |r| <= |s| && r == s[|s| - |r|..]
    ensures r == [] || !IsSpace(r[0])
    ensures forall i :: 0 <= i < |s| - |r| ==> IsSpace(s[i])
  {
    if s != [] && IsSpace(s[0]) then
      var t := s[1..];
      var r := TrimLeft(t);
      assert t[|t| - |r|..] == s[|s| - |r|..];
      assert forall i :: 0 <= i < |t| - |r| ==> s[i + 1] == t[i];
      r
    else s
  }

  /** `s.rstrip()`. */
  function TrimRight(s: string): (r: string)
    ensures |r| <= |s| && r == s[..|r|]
    ensures r == [] || !IsSpace(r[|r| - 1])
    ensures forall i :: |r| <= i < |s| ==> IsSpace(s[i])
  {
    if s != [] && IsSpace(s[|s| - 1]) then
      var r := TrimRight(s[..|s| - 1]);
      assert s[..|s| - 1][..|r|] == s[..|r|];
      r
    else s
  }

  /** `s.strip()`. */
  function Strip(s: string): (r: string)
    ensures r == [] || (!IsSpace(r[0]) && !IsSpace(r[|r| - 1]))
  {
    TrimRight(TrimLeft(s))
  }

  /** The length of the run of non-space characters that starts `s`. */
  function TokenLength(s: string): (n: nat)
    ensures n <= |s|
    ensures forall i :: 0 <= i < n ==> !IsSpace(s[i])
    ensures n == |s| || IsSpace(s[n])
  {
    if s == [] || IsSpace(s[0]) then 0 else 1 + TokenLength(s[1..])
  }

  /** `s.split()`: the maximal runs of non-space characters, in order. */
  function Split(s: string): (ts: seq<string>)
    ensures AllTokens(ts)
    decreases |s|
  {
    var u := TrimLeft(s);
    if u == [] then []
    else
      var n := TokenLength(u);
      TokenPrefix(u);
      var rest := Split(u[n..]);
      AllTokensCons(u[..n], rest);
      [u[..n]] + rest
  }

  /** The total length of the strings of `ws`. */
  function TotalLength(ws: seq<string>): nat
  {
    if ws == [] then 0 else |ws[0]| + TotalLength(ws[1..])
  }

  /** `' '.join(ws)`: the strings of `ws` with one separator between each two, so
      no list gives the empty text, one string gives itself, and the first
      string comes first. */
  function Join(ws: seq<string>): string
  {
    if ws == [] then []
    else if |ws| == 1 then ws[0]
    else ws[0] + " " + Join(ws[1..])
  }

  lemma {:induction false} TokenLengthOfToken(w: string, rest: string)
    requires IsToken(w)
    requires rest == [] || IsSpace(rest[0])
    ensures TokenLength(w + rest) == |w|
  {
    var s := w + rest;
    assert forall i :: 0 <= i < |w| ==> s[i] == w[i];
    assert |w| == |s| || s[|w|] == rest[0];
  }

  /** A leading whitespace character does not change what `split()` returns. */
  lemma SplitLeadingSpace(c: char, rest: string)
    requires IsSpace(c)
    ensures Split([c] + rest) == Split(rest)
  {
    assert ([c] + rest)[1..] == rest;
    assert TrimLeft([c] + rest) == TrimLeft(rest);
    SplitSameTrim([c] + rest, rest);
  }

  /** `split()` depends only on the text after the leading whitespace. */
  lemma SplitSameTrim(s: string, t: string)
    requires TrimLeft(s) == TrimLeft(t)
    ensures Split(s) == Split(t)
  {
  }

  /** `split()` on a token followed by a whitespace character and more text. */
  lemma SplitToken(w: string, c: char, rest: string)
    requires IsToken(w) && IsSpace(c)
    ensures Split(w + [c] + rest) == [w] + Split(rest)
  {
    var s := w + [c] + rest;
    assert s == w + ([c] + rest);
    assert TrimLeft(s) == s;
    TokenLengthOfToken(w, [c] + rest);
    assert s[..|w|] == w;
    assert s[|w|..] == [c] + rest;
    SplitLeadingSpace(c, rest);
  }

  /** `split()` finds no token in a text of whitespace only. */
  lemma {:induction false} SplitAllSpace(s: string)
    requires forall i :: 0 <= i < |s| ==> IsSpace(s[i])
    ensures Split(s) == []
    decreases |s|
  {
    if s != [] {
      SplitAllSpace(s[1..]);
      assert TrimLeft(s) == TrimLeft(s[1..]);
    }
  }

  /** `split()` on a single token. */
  lemma SplitSingle(w: string)
    requires IsToken(w)
    ensures Split(w) == [w]
  {
    TokenLengthOfToken(w, []);
    assert w + [] == w;
    assert TrimLeft(w) == w;
    assert w[|w|..] == [];
  }

  /** `split()` takes the first of several joined tokens off the front. */
  lemma SplitJoinStep(ws: seq<string>)
    requires AllTokens(ws)
    requires |ws| > 1
    ensures Split(Join(ws)) == [ws[0]] + Split(Join(ws[1..]))
  {
    assert Join(ws) == ws[0] + " " + Join(ws[1..]);
    SplitToken(ws[0], ' ', Join(ws[1..]));
  }

  /** Splitting a space-joined list of tokens gives the tokens back. */
  lemma {:induction false} SplitJoin(ws: seq<string>)
    requires AllTokens(ws)
    ensures Split(Join(ws)) == ws
  {
    if |ws| == 1 {
      SplitSingle(ws[0]);
    } else if |ws| > 1 {
      var tail := ws[1..];
      assert ws == [ws[0]] + tail;
      AllTokensCons(ws[0], tail);
      SplitJoin(tail);
      SplitJoinStep(ws);
    }
  }
}
