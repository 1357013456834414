// The slice of JavaScript's string library that the kiosk scripts rely on:
// trim, split on one character, join, global single-character replace,
// ASCII lower-casing, parseInt with radix 10 and String(n) for integers.

module Wrappers {
  datatype Option<T> = None | Some(value: T)
}

module JsString {
  import opened Wrappers

  /** The characters that String.prototype.trim removes and that the regular
      expression class \s matches: ECMAScript's WhiteSpace and LineTerminator
      code points. */
  predicate IsSpace(c: char) {
    c == '\t' || c == '\n' || c == '\U{B}' || c == '\U{C}' || c == '\r' || c == ' '
    || c == '\U{A0}' || c == '\U{1680}' || ('\U{2000}' <= c <= '\U{200A}')
    || c == '\U{2028}' || c == '\U{2029}' || c == '\U{202F}' || c == '\U{205F}'
    || c == '\U{3000}' || c == '\U{FEFF}'
  }

  predicate AllSpace(s: string) {
    forall i :: 0 <= i < |s| ==> IsSpace(s[i])
  }

  /** No white space at either end. */
  predicate Trimmed(s: string) {
    s == [] || (!IsSpace(s[0]) && !IsSpace(s[|s| - 1]))
  }

  /** JavaScript's `a || b` on strings: the empty string is falsy. */
  function Or(s: string, fallback: string): (r: string)
    ensures s != [] ==> r == s
    ensures s == [] ==> r == fallback
  {
    if s == [] then fallback else s
  }

  /** String.prototype.trimStart: a suffix that does not start with white space. */
  function TrimStart(s: string): (r: string)
    ensures |r| <= |s| && r == s[|s| - |r|..]
    ensures r == [] || !IsSpace(r[0])
  {
    if s != [] && IsSpace(s[0]) then TrimStart(s[1..]) else s
  }

  /** String.prototype.trimEnd: a prefix that does not end with white space. */
  function TrimEnd(s: string): (r: string)
    ensures |r| <= |s| && r == s[..|r|]
    ensures r == [] || !IsSpace(r[|r| - 1])
  {
    if s != [] && IsSpace(s[|s| - 1]) then TrimEnd(s[..|s| - 1]) else s
  }

  /** TrimStart drops white space only. */
  lemma {:induction false} TrimStartDropsSpace(s: string)
    ensures AllSpace(s[..|s| - |TrimStart(s)|])
  {
    if s != [] && IsSpace(s[0]) {
      TrimStartDropsSpace(s[1..]);
      var n := |s| - |TrimStart(s)|;
      assert s[..n] == [s[0]] + s[1..][..n - 1];
    }
  }

  /** TrimEnd drops white space only. */
  lemma {:induction false} TrimEndDropsSpace(s: string)
    ensures AllSpace(s[|TrimEnd(s)|..])
  {
    if s != [] && IsSpace(s[|s| - 1]) {
      var p := s[..|s| - 1];
      TrimEndDropsSpace(p);
      assert s[|TrimEnd(s)|..] == p[|TrimEnd(p)|..] + [s[|s| - 1]];
    }
  }

  /** String.prototype.trim: the longest infix with no white space at its ends,
      obtained by dropping only white space. */
  function Trim(s: string): (r: string)
    ensures Trimmed(r)
    ensures |r| <= |s|
  {
    TrimEnd(TrimStart(s))
  }

  /** Trim drops only white space, from both ends. */
  lemma TrimIsInfix(s: string)
    ensures exists k :: 0 <= k <= |s| - |Trim(s)| && Trim(s) == s[k..k + |Trim(s)|]
                        && AllSpace(s[..k]) && AllSpace(s[k + |Trim(s)|..])
  {
    var a := TrimStart(s);
    var r := TrimEnd(a);
    var k := |s| - |a|;
    TrimStartDropsSpace(s);
    TrimEndDropsSpace(a);
    assert r == s[k..k + |r|];
    assert s[k + |r|..] == a[|r|..];
  }

  lemma TrimOfSpaces(s: string)
    requires AllSpace(s)
    ensures Trim(s) == []
  {
  }

  lemma NotInSpaces(s: string, c: char)
    requires AllSpace(s) && !IsSpace(c)
    ensures c !in s
  {
  }

  lemma TrimmedIsFixed(s: string)
    requires Trimmed(s)
    ensures Trim(s) == s
  {
  }

  /** Trimming a string that holds a non-space character leaves a non-empty string. */
  lemma TrimKeepsNonSpace(s: string, i: nat)
    requires i < |s| && !IsSpace(s[i])
    ensures Trim(s) != []
  {
    var a := TrimStart(s);
    var n := |s| - |a|;
    TrimStartDropsSpace(s);
    SpacePrefixBound(s, n, i);
    assert a[i - n] == s[i];
    TrimEndDropsSpace(a);
    SpaceSuffixBound(a, |TrimEnd(a)|, i - n);
  }

  /** A non-space character lies beyond any all-space prefix. */
  lemma SpacePrefixBound(s: string, n: nat, i: nat)
    requires n <= |s| && AllSpace(s[..n]) && i < |s| && !IsSpace(s[i])
    ensures n <= i
  {
    assert forall j :: 0 <= j < n ==> s[..n][j] == s[j];
  }

  /** A non-space character lies before any all-space suffix. */
  lemma SpaceSuffixBound(s: string, m: nat, i: nat)
    requires m <= |s| && AllSpace(s[m..]) && i < |s| && !IsSpace(s[i])
    ensures i < m
  {
    assert forall j :: m <= j < |s| ==> s[m..][j - m] == s[j];
  }

  /** White space put in front of a trimmed non-empty string is removed again. */
  lemma {:induction false} TrimDropsPadding(w: string, t: string)
    requires AllSpace(w) && Trimmed(t) && t != []
    ensures Trim(w + t) == t
  {
    TrimStartPadding(w, t);
  }

  lemma {:induction false} TrimStartPadding(w: string, t: string)
    requires AllSpace(w) && t != [] && !IsSpace(t[0])
    ensures TrimStart(w + t) == t
  {
    if w != [] {
      assert (w + t)[1..] == w[1..] + t;
      TrimStartPadding(w[1..], t);
    } else {
      assert w + t == t;
    }
  }

  /** Concatenation is associative (stated on its own so that proofs about
      strings need not re-derive it by extensionality). */
  lemma Assoc<T>(x: seq<T>, y: seq<T>, z: seq<T>)
    ensures x + y + z == x + (y + z)
  {
  }

  /** Number of occurrences of `c` in `s`. */
  function Count(s: string, c: char): nat {
    if s == [] then 0 else (if s[0] == c then 1 else 0) + Count(s[1..], c)
  }

  lemma {:induction false} CountAppend(a: string, b: string, c: char)
    ensures Count(a + b, c) == Count(a, c) + Count(b, c)
  {
    if a != [] {
      assert (a + b)[1..] == a[1..] + b;
      CountAppend(a[1..], b, c);
    } else {
      assert a + b == b;
    }
  }

  lemma {:induction false} CountAbsent(s: string, c: char)
    requires c !in s
    ensures Count(s, c) == 0
  {
    if s != [] {
      CountAbsent(s[1..], c);
    }
  }

  /** Position of the first `c` in `s`, or |s| if there is none. */
  function IndexOf(s: string, c: char): (i: nat)
    ensures i <= |s|
    ensures i < |s| ==> s[i] == c
    ensures c !in s[..i]
  {
    if s == [] then 0 else if s[0] == c then 0 else 1 + IndexOf(s[1..], c)
  }

  /** String.prototype.join: the pieces with `sep` between consecutive ones. */
  function Join(pieces: seq<string>, sep: string): string {
    if |pieces| == 0 then []
    else if |pieces| == 1 then pieces[0]
    else pieces[0] + sep + Join(pieces[1..], sep)
  }

  /** Concatenation of all pieces (`join('')`). */
  function Concat(pieces: seq<string>): string {
    if pieces == [] then [] else pieces[0] + Concat(pieces[1..])
  }

  /** String.prototype.split with a one-character separator: the maximal
      separator-free pieces, one more than there are separators, which joined
      back with the separator give the input. */
  function Split(s: string, c: char): (r: seq<string>)
    ensures |r| == Count(s, c) + 1
    ensures forall k :: 0 <= k < |r| ==> c !in r[k]

    decreases |s|
  {
    var i := IndexOf(s, c);
    if i == |s| then
      CountAbsent(s, c);
      assert s[..i] == s;
      [s]
    else
      var rest := Split(s[i + 1..], c);
      assert s == s[..i] + ([c] + s[i + 1..]);
      assert Count([c], c) == 1;
      CountAppend(s[..i], [c] + s[i + 1..], c);
      CountAppend([c], s[i + 1..], c);
      CountAbsent(s[..i], c);
      [s[..i]] + rest
  }

  /** Joining the pieces with the separator gives the input back. */
  lemma {:induction false} SplitJoin(s: string, c: char)
    ensures Join(Split(s, c), [c]) == s
    decreases |s|
  {
    var i := IndexOf(s, c);
    if i == |s| {
      assert s[..i] == s;
    } else {
      var rest := Split(s[i + 1..], c);
      SplitJoin(s[i + 1..], c);
      JoinCons(s[..i], rest, [c]);
      assert s == s[..i] + [c] + s[i + 1..];
    }
  }

  lemma JoinCons(p: string, rest: seq<string>, sep: string)
    requires rest != []
    ensures Join([p] + rest, sep) == p + sep + Join(rest, sep)
  {
    assert ([p] + rest)[1..] == rest;
  }

  /** Splitting a join of separator-free pieces gives the pieces back. */
  lemma {:induction false} JoinSplit(pieces: seq<string>, c: char)
    requires pieces != []
    requires forall k :: 0 <= k < |pieces| ==> c !in pieces[k]
    ensures Split(Join(pieces, [c]), c) == pieces
  {
    if |pieces| == 1 {
      SplitWithout(pieces[0], c);
    } else {
      JoinSplit(pieces[1..], c);
      SplitAt(pieces[0], Join(pieces[1..], [c]), c);
      HeadTail(pieces);
    }
  }

  lemma NotInAppend<T>(x: seq<T>, y: seq<T>, e: T)
    requires e !in x && e !in y
    ensures e !in x + y
  {
  }

  /** A character absent from every piece and from the separator is absent from the join. */
  lemma {:induction false} JoinWithout(pieces: seq<string>, sep: string, c: char)
    requires c !in sep
    requires forall k :: 0 <= k < |pieces| ==> c !in pieces[k]
    ensures c !in Join(pieces, sep)
  {
    if |pieces| > 1 {
      JoinWithout(pieces[1..], sep, c);
      NotInAppend(pieces[0], sep, c);
      NotInAppend(pieces[0] + sep, Join(pieces[1..], sep), c);
    }
  }

  lemma HeadTail<T>(s: seq<T>)
    requires s != []
    ensures s == [s[0]] + s[1..]
  {
  }

  /** Joining one more piece at the end. */
  lemma {:induction false} JoinSnoc(pieces: seq<string>, last: string, sep: string)
    requires pieces != []
    ensures Join(pieces + [last], sep) == Join(pieces, sep) + sep + last
  {
    var all := pieces + [last];
    assert all[0] == pieces[0];
    if |pieces| == 1 {
      assert all[1..] == [last];
    } else {
      assert all[1..] == pieces[1..] + [last];
      JoinSnoc(pieces[1..], last, sep);
      Assoc4(pieces[0], sep, Join(pieces[1..], sep), sep + last);
    }
  }

  lemma Assoc4<T>(a: seq<T>, b: seq<T>, c: seq<T>, d: seq<T>)
    ensures a + b + (c + d) == a + b + c + d
  {
  }

  /** Extending the last piece extends the join. */
  lemma JoinExtendLast(pieces: seq<string>, last: string, ch: char, sep: string)
    ensures Join(pieces + [last + [ch]], sep) == Join(pieces + [last], sep) + [ch]
  {
    if pieces == [] {
      assert pieces + [last + [ch]] == [last + [ch]];
      assert pieces + [last] == [last];
    } else {
      JoinSnoc(pieces, last + [ch], sep);
      JoinSnoc(pieces, last, sep);
    }
  }

  lemma SplitWithout(s: string, c: char)
    requires c !in s
    ensures Split(s, c) == [s]
  {
  }

  lemma SplitAt(a: string, b: string, c: char)
    requires c !in a
    ensures Split(a + [c] + b, c) == [a] + Split(b, c)
  {
    var s := a + [c] + b;
    assert s[|a|] == c;
    assert s[..|a|] == a;
    assert s[|a| + 1..] == b;
  }

  /** `s.replace(/c/g, repl)`: every occurrence of `c` replaced by `repl`. */
  function ReplaceAll(s: string, c: char, repl: string): (r: string)
    ensures c !in s ==> r == s
  {
    if s == [] then []
    else (if s[0] == c then repl else [s[0]]) + ReplaceAll(s[1..], c, repl)
  }

  /** Every character of the result is a character of the input other than
      `c`, or a character of the replacement. */
  lemma {:induction false} ReplaceAllOrigin(s: string, c: char, repl: string, d: char)
    requires d in ReplaceAll(s, c, repl)
    ensures (d in s && d != c) || d in repl
  {
    if s != [] {
      var head := if s[0] == c then repl else [s[0]];
      if d !in head {
        ReplaceAllOrigin(s[1..], c, repl, d);
      }
    }
  }

  lemma ReplaceAllSingle(d: char, c: char, repl: string)
    ensures ReplaceAll([d], c, repl) == if d == c then repl else [d]
  {
    assert [d][1..] == [];
  }

  lemma {:induction false} ReplaceAllAppend(a: string, b: string, c: char, repl: string)
    ensures ReplaceAll(a + b, c, repl) == ReplaceAll(a, c, repl) + ReplaceAll(b, c, repl)
  {
    if a == [] {
      assert a + b == b;
    } else {
      assert (a + b)[1..] == a[1..] + b;
      ReplaceAllAppend(a[1..], b, c, repl);
      var h := if a[0] == c then repl else [a[0]];
      Assoc(h, ReplaceAll(a[1..], c, repl), ReplaceAll(b, c, repl));
    }
  }

  function LowerChar(c: char): char {
    if 'A' <= c <= 'Z' then (c as int + 32) as char else c
  }

  /** String.prototype.toLowerCase, for the ASCII letters. */
  function ToLowerCase(s: string): (r: string)
    ensures |r| == |s|
    ensures forall i :: 0 <= i < |s| ==> r[i] == LowerChar(s[i])
  {
    if s == [] then [] else [LowerChar(s[0])] + ToLowerCase(s[1..])
  }

  function UpperChar(c: char): char {
    if 'a' <= c <= 'z' then (c as int - 32) as char else c
  }

  /** String.prototype.toUpperCase, for the ASCII letters. */
  function ToUpperCase(s: string): (r: string)
    ensures |r| == |s|
    ensures forall i :: 0 <= i < |s| ==> r[i] == UpperChar(s[i])
  {
    if s == [] then [] else [UpperChar(s[0])] + ToUpperCase(s[1..])
  }

  /** `s.replace(/\s+/g, repl)`: every maximal run of white space replaced by `repl`. */
  function ReplaceSpaceRuns(s: string, repl: string): (r: string)
    ensures (forall i :: 0 <= i < |repl| ==> !IsSpace(repl[i])) ==> forall i :: 0 <= i < |r| ==> !IsSpace(r[i])
    ensures (forall i :: 0 <= i < |s| ==> !IsSpace(s[i])) ==> r == s
    ensures s != [] && repl != [] ==> r != []
    decreases |s|
  {
    if s == [] then []
    else if IsSpace(s[0]) then repl + ReplaceSpaceRuns(TrimStart(s), repl)
    else [s[0]] + ReplaceSpaceRuns(s[1..], repl)
  }

  predicate IsDigit(c: char) {
    '0' <= c <= '9'
  }

  function DigitChar(d: nat): char
    requires d < 10
  {
    ('0' as int + d) as char
  }

  /** The decimal digits of `n`, most significant first, without leading zeros. */
  function NatToString(n: nat): (r: string)
    ensures r != []
    ensures forall i :: 0 <= i < |r| ==> IsDigit(r[i])
    ensures r[0] != '0' || n == 0
  {
    if n < 10 then [DigitChar(n)] else NatToString(n / 10) + [DigitChar(n % 10)]
  }

  /** String(n) for an integer n. */
  function NumberToString(n: int): string {
    if n < 0 then "-" + NatToString(-n) else NatToString(n)
  }

  /** Value of a string of decimal digits. */
  function DigitsValue(s: string): nat
    requires forall i :: 0 <= i < |s| ==> IsDigit(s[i])
  {
    if s == [] then 0
    else
      assert IsDigit(s[|s| - 1]);
      DigitsValue(s[..|s| - 1]) * 10 + (s[|s| - 1] as int - '0' as int)
  }

  /** Length of the longest prefix of `s` made of decimal digits. */
  function DigitRun(s: string): (k: nat)
    ensures k <= |s|
    ensures forall i :: 0 <= i < k ==> IsDigit(s[i])
    ensures k < |s| ==> !IsDigit(s[k])
  {
    if s != [] && IsDigit(s[0]) then 1 + DigitRun(s[1..]) else 0
  }

  /** parseInt(s, 10): leading white space is skipped, one sign is read, then
      the longest run of decimal digits; without any digit the result is NaN
      (None here). */
  function ParseInt(s: string): (r: Option<int>)
    ensures r.None? <==> DigitRun(Unsigned(TrimStart(s))) == 0
  {
    var t := TrimStart(s);
    var u := Unsigned(t);
    var k := DigitRun(u);
    if k == 0 then None
    else
      var v: int := DigitsValue(u[..k]);
      Some(if t != [] && t[0] == '-' then -v else v)
  }

  /** What follows an optional leading sign. */
  function Unsigned(t: string): string {
    if t != [] && (t[0] == '-' || t[0] == '+') then t[1..] else t
  }

  /** `parseInt(v, 10) || fallback`: NaN and zero fall back. */
  function ParseIntOr(s: string, fallback: int): (r: int)
    ensures r != 0 || fallback == 0
  {
    match ParseInt(s)
    case Some(n) => if n == 0 then fallback else n
    case None => fallback
  }

  lemma {:induction false} DigitsOfNatToString(n: nat)
    ensures DigitsValue(NatToString(n)) == n
  {
    var s := NatToString(n);
    if n >= 10 {
      DigitsOfNatToString(n / 10);
      assert s[..|s| - 1] == NatToString(n / 10);
    }
  }

  /** parseInt reads back exactly the integer that String(n) wrote. */
  lemma ParseIntOfNumberToString(n: int)
    ensures ParseInt(NumberToString(n)) == Some(n)
  {
    var s := NumberToString(n);
    var m: nat := if n < 0 then -n else n;
    var digits := NatToString(m);
    assert s[0] == '-' || IsDigit(s[0]);
    assert !IsSpace(s[0]);
    assert TrimStart(s) == s;
    assert Unsigned(s) == digits;
    DigitRunAll(digits);
    assert digits[..|digits|] == digits;
    DigitsOfNatToString(m);
  }

  lemma DigitRunAll(s: string)
    requires forall i :: 0 <= i < |s| ==> IsDigit(s[i])
    ensures DigitRun(s) == |s|
  {
  }
}
