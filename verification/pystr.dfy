/** The Python `str` operations the server applies to decoded lines -- `strip()`,
    `split(None, maxsplit)`, `upper()`, `startswith` and `endswith` -- over ASCII text. */
module PyStr {

  /** `str.isspace()` on ASCII: tab, line feed, vertical tab, form feed, carriage return,
      the separators 0x1C..0x1F, and space. */
  predicate IsSpace(c: char) {
    var n := c as int; n == 32 || 9 <= n <= 13 || 28 <= n <= 31
  }

  predicate NoSpace(s: string) {
    forall i :: 0 <= i < |s| ==> !IsSpace(s[i])
  }

  predicate AllSpace(s: string) {
    forall i :: 0 <= i < |s| ==> IsSpace(s[i])
  }

  /** What `strip()` leaves alone: the empty string, or one whose ends are not whitespace. */
  predicate IsStripped(s: string) {
    s == [] || (!IsSpace(s[0]) && !IsSpace(s[|s| - 1]))
  }

  predicate StartsWith(s: string, prefix: string) {
    |prefix| <= |s| && s[..|prefix|] == prefix
  }

  predicate EndsWith(s: string, suffix: string) {
    |suffix| <= |s| && s[|s| - |suffix|..] == suffix
  }

  /** `str.upper()` on one ASCII character. */
  function UpperChar(c: char): char {
    if 'a' <= c <= 'z' then (c as int - 32) as char else c
  }

  /** `str.upper()`: the same length, every character mapped by UpperChar. */
  function Upper(s: string): (u: string)
    ensures |u| == |s|
    ensures forall i :: 0 <= i < |s| ==> u[i] == UpperChar(s[i])
  {
    if s == [] then [] else [UpperChar(s[0])] + Upper(s[1..])
  }

  /** `str.lstrip()`: drops the longest all-whitespace prefix (`TrimLeftShape`). */
  function TrimLeft(s: string): (r: string)
    ensures |r| <= |s|
    ensures r == [] || !IsSpace(r[0])
  {
    if s != [] && IsSpace(s[0]) then TrimLeft(s[1..]) else s
  }

  /** `str.rstrip()`: drops the longest all-whitespace suffix (`TrimRightShape`). */
  function TrimRight(s: string): (r: string)
    ensures |r| <= |s|
    ensures r == [] || !IsSpace(r[|r| - 1])
  {
    if s != [] && IsSpace(s[|s| - 1]) then TrimRight(s[..|s| - 1]) else s
  }

  /** What `lstrip()` drops is a prefix made of whitespace only; what it keeps is the rest. */
  lemma {:induction false} TrimLeftShape(s: string)
    ensures TrimLeft(s) == s[|s| - |TrimLeft(s)|..]
    ensures AllSpace(s[..|s| - |TrimLeft(s)|])
    decreases |s|
  {
    if s != [] && IsSpace(s[0]) {
      TrimLeftShape(s[1..]);
      assert s[1..][|s| - 1 - |TrimLeft(s)|..] == s[|s| - |TrimLeft(s)|..];
      assert forall i :: 0 <= i < |s| - |TrimLeft(s)| ==> i == 0 || s[i] == s[1..][..|s| - 1 - |TrimLeft(s)|][i - 1];
    }
  }

  /** What `rstrip()` drops is a suffix made of whitespace only; what it keeps is the rest. */
  lemma {:induction false} TrimRightShape(s: string)
    ensures TrimRight(s) == s[..|TrimRight(s)|]
    ensures AllSpace(s[|TrimRight(s)|..])
    decreases |s|
  {
    if s != [] && IsSpace(s[|s| - 1]) {
      var p := s[..|s| - 1];
      TrimRightShape(p);
      assert p[..|TrimRight(s)|] == s[..|TrimRight(s)|];
      assert forall i :: |TrimRight(s)| <= i < |s| ==> i == |s| - 1 || s[i] == p[i];
    }
  }

  /** `str.strip()`. */
  function Strip(s: string): (r: string)
    ensures IsStripped(r) && |r| <= |s|
  {
    TrimRightShape(TrimLeft(s));
    TrimRight(TrimLeft(s))
  }

  /** The longest prefix of `s` that holds no whitespace. */
  function Word(s: string): (w: string)
    ensures |w| <= |s| && w == s[..|w|] && NoSpace(w)
    ensures |w| == |s| || IsSpace(s[|w|])
  {
    if s == [] || IsSpace(s[0]) then [] else [s[0]] + Word(s[1..])
  }

  /** `str.split(None, maxsplit)`: at most `maxsplit` whitespace-separated words are cut off
      the front; what remains after them, with its leading whitespace dropped, is the last
      part. An all-whitespace string gives no parts. */
  function SplitWs(s: string, maxsplit: nat): (parts: seq<string>)
    ensures |parts| <= maxsplit + 1
    ensures Parts(parts)
    decreases |s|
  {
    var t := TrimLeft(s);
    if t == [] then []
    else if maxsplit == 0 then [t]
    else
      var w := Word(t);
      assert w != [] && w[0] == t[0] by { assert !IsSpace(t[0]); }
      var more := SplitWs(t[|w|..], maxsplit - 1);
      PartsCons(w, more);
      [w] + more
  }

  /** Every part of a split is non-empty and starts with a non-whitespace character. */
  predicate Parts(parts: seq<string>) {
    forall i :: 0 <= i < |parts| ==> parts[i] != [] && !IsSpace(parts[i][0])
  }

  lemma PartsCons(w: string, more: seq<string>)
    requires w != [] && !IsSpace(w[0]) && Parts(more)
    ensures Parts([w] + more)
  {
    forall i | 0 < i < |more| + 1 ensures ([w] + more)[i] == more[i - 1] { }
  }

  // ---------------------------------------------------------------------------
  // Facts about the helpers

  lemma UpperCharSpace(c: char)
    ensures IsSpace(UpperChar(c)) <==> IsSpace(c)
    ensures UpperChar(c) == ' ' <==> c == ' '
  {
  }

  /** An upper-cased prefix pins down where the original line has whitespace. */
  lemma UpperPrefixSpaces(line: string, kw: string)
    requires StartsWith(Upper(line), kw)
    ensures forall i :: 0 <= i < |kw| ==> (IsSpace(line[i]) <==> IsSpace(kw[i]))
  {
    forall i | 0 <= i < |kw| ensures IsSpace(line[i]) <==> IsSpace(kw[i]) {
      assert Upper(line)[i] == kw[i];
      UpperCharSpace(line[i]);
    }
  }

  /** `strip()` leaves an already stripped string unchanged, so it is idempotent. */
  lemma StripStripped(s: string)
    requires IsStripped(s)
    ensures Strip(s) == s
  {
  }

  lemma StripIdempotent(s: string)
    ensures Strip(Strip(s)) == Strip(s)
  {
    StripStripped(Strip(s));
  }

  /** `strip()` gives the empty string exactly for all-whitespace input. */
  lemma StripEmpty(s: string)
    ensures Strip(s) == [] <==> AllSpace(s)
  {
    var t := TrimLeft(s);
    TrimLeftShape(s);
    TrimRightShape(t);
    if t != [] {
      assert t[0] == s[|s| - |t|];
      assert TrimRight(t)[..1] == t[..1];
    } else {
      assert s[..|s|] == s;
    }
  }

  lemma {:induction false} WordUpTo(s: string, k: nat)
    requires k <= |s| && NoSpace(s[..k]) && (k == |s| || IsSpace(s[k]))
    ensures Word(s) == s[..k]
  {
    if k > 0 {
      assert s[0] == s[..k][0];
      assert s[1..][..k - 1] == s[..k][1..];
      WordUpTo(s[1..], k - 1);
      assert s[..k] == [s[0]] + s[1..][..k - 1];
    }
  }

  lemma TrimLeftFromWord(s: string)
    requires s != [] && !IsSpace(s[0])
    ensures TrimLeft(s) == s
  {
  }

  /** Dropping leading whitespace keeps a non-whitespace last character. */
  lemma TrimLeftKeepsLast(s: string)
    requires s != [] && !IsSpace(s[|s| - 1])
    ensures TrimLeft(s) != [] && TrimLeft(s)[|TrimLeft(s)| - 1] == s[|s| - 1]
  {
    var r := TrimLeft(s);
    TrimLeftShape(s);
    assert r != [];
    assert s[|s| - |r|..][|r| - 1] == s[|s| - 1];
  }

  /** One step of the split: the first word comes off the left-stripped string. */
  lemma SplitStep(s: string, n: nat)
    requires TrimLeft(s) != [] && n > 0
    ensures SplitWs(s, n) == [Word(TrimLeft(s))] + SplitWs(TrimLeft(s)[|Word(TrimLeft(s))|..], n - 1)
  {
  }

  lemma SplitZero(s: string)
    requires TrimLeft(s) != []
    ensures SplitWs(s, 0) == [TrimLeft(s)]
  {
  }

  /** A stripped line whose first `k` characters hold no whitespace and whose `k`-th one is
      whitespace splits once into that keyword and a non-empty, stripped remainder. */
  lemma SplitOnceAtSpace(line: string, k: nat)
    requires IsStripped(line) && 0 < k < |line|
    requires NoSpace(line[..k]) && IsSpace(line[k])
    ensures SplitWs(line, 1) == [line[..k], TrimLeft(line[k..])]
    ensures TrimLeft(line[k..]) != [] && IsStripped(TrimLeft(line[k..]))
  {
    SplitOnceTail(line, k);
    SplitOnceHead(line, k);
    SplitZero(line[k..]);
  }

  /** With one split left, the first word is cut off and the remainder is split with none. */
  lemma SplitOnceHead(line: string, k: nat)
    requires IsStripped(line) && 0 < k < |line|
    requires NoSpace(line[..k]) && IsSpace(line[k])
    ensures SplitWs(line, 1) == [line[..k]] + SplitWs(line[k..], 0)
  {
    TrimLeftFromWord(line);
    WordUpTo(line, k);
    SplitStep(line, 1);
  }

  /** The remainder after the first word of a stripped line is non-blank and right-stripped. */
  lemma SplitOnceTail(line: string, k: nat)
    requires IsStripped(line) && 0 < k < |line|
    requires IsSpace(line[k])
    ensures TrimLeft(line[k..]) != [] && IsStripped(TrimLeft(line[k..]))
  {
    var rest := line[k..];
    assert rest[|rest| - 1] == line[|line| - 1];
    TrimLeftKeepsLast(rest);
  }

  /** The last part of a split ends where the string ends, when that is not whitespace. */
  lemma {:induction false} SplitKeepsLast(s: string, n: nat)
    requires s != [] && !IsSpace(s[|s| - 1])
    ensures var parts := SplitWs(s, n);
      parts != [] && parts[|parts| - 1] != [] && parts[|parts| - 1][|parts[|parts| - 1]| - 1] == s[|s| - 1]
    decreases n
  {
    var t := TrimLeft(s);
    TrimLeftKeepsLast(s);
    if n > 0 {
      var w := Word(t);
      SplitStep(s, n);
      var rest := t[|w|..];
      if |w| < |t| {
        assert rest[|rest| - 1] == t[|t| - 1];
        SplitKeepsLast(rest, n - 1);
      } else {
        assert w == t && rest == [];
        assert SplitWs(rest, n - 1) == [];
      }
    }
  }

  lemma TrimLeftSpace(rest: string)
    ensures TrimLeft(" " + rest) == TrimLeft(rest)
  {
    assert (" " + rest)[1..] == rest;
  }

  /** A word followed by a space comes off the front as one part. */
  lemma SplitWordSpace(kw: string, rest: string, n: nat)
    requires kw != [] && NoSpace(kw)
    ensures SplitWs(kw + " " + rest, n + 1) == [kw] + SplitWs(rest, n)
  {
    var line := kw + " " + rest;
    assert TrimLeft(line) == line by {
      assert line[0] == kw[0];
      TrimLeftFromWord(line);
    }
    assert Word(line) == kw by {
      assert line[..|kw|] == kw;
      WordUpTo(line, |kw|);
    }
    SplitStep(line, n + 1);
    assert SplitWs(line[|kw|..], n) == SplitWs(rest, n) by {
      assert line[|kw|..] == " " + rest;
      TrimLeftSpace(rest);
      SplitSame(" " + rest, rest, n);
    }
  }

  lemma SplitSame(a: string, b: string, n: nat)
    requires TrimLeft(a) == TrimLeft(b)
    ensures SplitWs(a, n) == SplitWs(b, n)
  {
  }

  /** The last part of a split is the stripped remainder itself. */
  lemma SplitLast(text: string)
    requires text != [] && IsStripped(text)
    ensures SplitWs(text, 0) == [text]
  {
    TrimLeftFromWord(text);
  }

  lemma SplitWordThenText(arg: string, text: string)
    requires arg != [] && NoSpace(arg) && text != [] && IsStripped(text)
    ensures SplitWs(arg + " " + text, 1) == [arg, text]
  {
    assert SplitWs(arg + " " + text, 1) == [arg] + SplitWs(text, 0) by {
      SplitWordSpace(arg, text, 0);
    }
    assert SplitWs(text, 0) == [text] by {
      SplitLast(text);
    }
  }

  lemma SplitTwiceAtSpaces(kw: string, arg: string, text: string)
    requires kw != [] && arg != [] && NoSpace(kw) && NoSpace(arg)
    requires text != [] && IsStripped(text)
    ensures SplitWs(kw + " " + (arg + " " + text), 2) == [kw, arg, text]
  {
    assert SplitWs(arg + " " + text, 1) == [arg, text] by {
      SplitWordThenText(arg, text);
    }
    assert SplitWs(kw + " " + (arg + " " + text), 2) == [kw] + SplitWs(arg + " " + text, 1) by {
      SplitWordSpace(kw, arg + " " + text, 1);
    }
  }
}
