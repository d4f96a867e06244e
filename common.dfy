/** Values and string operations shared by every module: the optional and
    failing results the services return, and the JavaScript string
    primitives (`trim`, `split`, `join`, `startsWith`, `includes`, the `\s`
    character class) the source relies on. */
module Common {

  datatype Option<+T> = None | Some(value: T)

  /** What a service call ends with: a value it returns or a value it throws. */
  datatype Result<+T, +E> = Ok(value: T) | Err(error: E)

  /** The characters JavaScript's `trim` removes and `\s` matches
      (WhiteSpace and LineTerminator of ECMAScript). */
  predicate IsSpace(c: char)
  {
    c == '\t' || c == '\n' || c == '\U{000B}' || c == '\U{000C}' || c == '\r' || c == ' '
    || c == '\U{00A0}' || c == '\U{1680}' || ('\U{2000}' <= c <= '\U{200A}')
    || c == '\U{2028}' || c == '\U{2029}' || c == '\U{202F}' || c == '\U{205F}'
    || c == '\U{3000}' || c == '\U{FEFF}'
  }

  /** `[0-9]` */
  predicate IsDigit(c: char)
  {
    '0' <= c <= '9'
  }

  predicate AllDigits(s: string)
  {
    forall i :: 0 <= i < |s| ==> IsDigit(s[i])
  }

  predicate AllSpace(s: string)
  {
    forall i :: 0 <= i < |s| ==> IsSpace(s[i])
  }

  /** `s.startsWith(p)` */
  predicate StartsWith(s: string, p: string)
  {
    |p| <= |s| && s[..|p|] == p
  }

  /** The `n` characters of `s` from position `k` on. */
  function Window(s: string, k: int, n: nat): string
    requires 0 <= k && k + n <= |s|
  {
    s[k..k + n]
  }

  /** `sub` occurs in `s` at some position. */
  ghost predicate Occurs(sub: string, s: string)
  {
    exists k :: 0 <= k <= |s| - |sub| && Window(s, k, |sub|) == sub
  }

  /** `s.includes(sub)` */
  predicate Includes(s: string, sub: string)
    decreases |s|
  {
    StartsWith(s, sub) || (|s| > 0 && Includes(s[1..], sub))
  }

  lemma {:induction false} IncludesMeansOccurs(s: string, sub: string)
    ensures Includes(s, sub) <==> Occurs(sub, s)
    decreases |s|
  {
    if StartsWith(s, sub) {
      assert Window(s, 0, |sub|) == sub;
    } else if |s| > 0 {
      IncludesMeansOccurs(s[1..], sub);
      OccursInTail(sub, s);
    }
  }

  /** Away from the front, an occurrence in `s` is one in its tail. */
  lemma OccursInTail(sub: string, s: string)
    requires |s| > 0 && !StartsWith(s, sub)
    ensures Occurs(sub, s) <==> Occurs(sub, s[1..])
  {
    if Occurs(sub, s) {
      var k :| 0 <= k <= |s| - |sub| && Window(s, k, |sub|) == sub;
      assert k != 0;
      assert Window(s[1..], k - 1, |sub|) == sub;
    }
    if Occurs(sub, s[1..]) {
      var k :| 0 <= k <= |s[1..]| - |sub| && Window(s[1..], k, |sub|) == sub;
      assert s[1..][k..k + |sub|] == s[k + 1..k + 1 + |sub|];
      assert Window(s, k + 1, |sub|) == sub;
    }
  }

  lemma OccursInContext(sub: string, a: string, x: string, y: string)
    requires Occurs(sub, a)
    ensures Occurs(sub, x + a + y)
  {
    var k :| 0 <= k <= |a| - |sub| && Window(a, k, |sub|) == sub;
    var s := x + a + y;
    assert Window(s, |x| + k, |sub|) == Window(a, k, |sub|);
  }

  /** A string missing one of the characters of `sub` does not contain it. */
  lemma MissingCharBlocks(sub: string, s: string, i: nat)
    requires i < |sub| && sub[i] !in s
    ensures !Occurs(sub, s)
  {
    forall k | 0 <= k <= |s| - |sub|
      ensures Window(s, k, |sub|) != sub
    {
      assert Window(s, k, |sub|)[i] == s[k + i];
    }
  }

  lemma OccursItself(s: string)
    ensures Occurs(s, s)
  {
    assert Window(s, 0, |s|) == s;
  }

  lemma AllSpaceAppend(a: string, b: string)
    ensures AllSpace(a + b) <==> AllSpace(a) && AllSpace(b)
  {
    if AllSpace(a) && AllSpace(b) {
      forall i | 0 <= i < |a + b|
        ensures IsSpace((a + b)[i])
      {
        if i >= |a| {
          assert (a + b)[i] == b[i - |a|];
        }
      }
    }
    if AllSpace(a + b) {
      forall i | 0 <= i < |a|
        ensures IsSpace(a[i])
      {
        assert a[i] == (a + b)[i];
      }
      forall i | 0 <= i < |b|
        ensures IsSpace(b[i])
      {
        assert b[i] == (a + b)[|a| + i];
      }
    }
  }

  /** `s.trimStart()` */
  function TrimStart(s: string): (r: string)
    ensures |r| <= |s| && r == s[|s| - |r|..]
    ensures r == [] || !IsSpace(r[0])
    ensures AllSpace(s[..|s| - |r|])
    decreases |s|
  {
    if |s| > 0 && IsSpace(s[0]) then
      var r := TrimStart(s[1..]);
      assert s[..|s| - |r|] == [s[0]] + s[1..][..|s[1..]| - |r|];
      r
    else s
  }

  /** `s.trimEnd()` */
  function TrimEnd(s: string): (r: string)
    ensures |r| <= |s| && r == s[..|r|]
    ensures r == [] || !IsSpace(r[|r| - 1])
    ensures AllSpace(s[|r|..])
    decreases |s|
  {
    if |s| > 0 && IsSpace(s[|s| - 1]) then
      var r := TrimEnd(s[..|s| - 1]);
      assert s[|r|..] == s[..|s| - 1][|r|..] + [s[|s| - 1]];
      r
    else s
  }

  /** `s.trim()` */
  function Trim(s: string): string
  {
    TrimEnd(TrimStart(s))
  }

  /** Every character of the trimmed text is a character of the text. */
  lemma TrimmedCharIn(s: string, j: nat)
    requires j < |Trim(s)|
    ensures Trim(s)[j] in s
  {
    var r := TrimStart(s);
    assert Trim(s)[j] == r[j];
    assert r[j] == s[|s| - |r| + j];
  }

  /** A string that `trim` turns into `''`, so that `!s.trim()` holds. */
  lemma TrimEmptyIffAllSpace(s: string)
    ensures Trim(s) == "" <==> AllSpace(s)
  {
    var t := TrimStart(s);
    if Trim(s) == "" {
      assert t == t[|TrimEnd(t)|..];
      AllSpaceAppend(s[..|s| - |t|], t);
      assert s == s[..|s| - |t|] + t;
    } else if AllSpace(s) {
      TrimStartOfSpaces(s);
    }
  }

  lemma {:induction false} TrimStartOfSpaces(s: string)
    requires AllSpace(s)
    ensures TrimStart(s) == ""
    decreases |s|
  {
    if |s| > 0 {
      TrimStartOfSpaces(s[1..]);
    }
  }

  /** `trimEnd` keeps every character up to the last non-space one. */
  lemma {:induction false} TrimEndKeepsNonSpace(s: string, k: nat)
    requires k < |s| && !IsSpace(s[k])
    ensures |TrimEnd(s)| > k
    decreases |s|
  {
    if |s| > 0 && IsSpace(s[|s| - 1]) {
      TrimEndKeepsNonSpace(s[..|s| - 1], k);
    }
  }

  /** Trimming the end keeps every character up to the last non-space one,
      so a prefix that ends in a non-space survives it. */
  lemma TrimEndKeepsPrefix(s: string, p: string)
    requires |p| > 0 && !IsSpace(p[|p| - 1])
    ensures StartsWith(TrimEnd(s), p) <==> StartsWith(s, p)
  {
    var r := TrimEnd(s);
    if StartsWith(s, p) {
      assert s[|p| - 1] == p[|p| - 1];
      TrimEndKeepsNonSpace(s, |p| - 1);
      assert r[..|p|] == s[..|p|];
    }
    if StartsWith(r, p) {
      assert s[..|p|] == r[..|p|];
    }
  }

  /** A leading run of whitespace in front of a string that starts with a
      non-space is exactly what `trimStart` removes. */
  lemma TrimStartSkipsLead(lead: string, s: string)
    requires AllSpace(lead)
    requires |s| > 0 && !IsSpace(s[0])
    ensures TrimStart(lead + s) == s
    decreases |lead|
  {
    if |lead| > 0 {
      assert (lead + s)[1..] == lead[1..] + s;
      TrimStartSkipsLead(lead[1..], s);
    } else {
      assert lead + s == s;
    }
  }

  /** Any blank run in front of a string is removed by `trimStart`. */
  lemma {:induction false} TrimStartDropsLead(lead: string, s: string)
    requires AllSpace(lead)
    ensures TrimStart(lead + s) == TrimStart(s)
    decreases |lead|
  {
    if |lead| > 0 {
      assert (lead + s)[1..] == lead[1..] + s;
      TrimStartDropsLead(lead[1..], s);
    } else {
      assert lead + s == s;
    }
  }

  /** `s.split(sep)` for a one-character separator. */
  function Split(s: string, sep: char): (parts: seq<string>)
    ensures |parts| >= 1
    decreases |s|
  {
    if |s| == 0 then [""]
    else if s[0] == sep then [""] + Split(s[1..], sep)
    else
      var rest := Split(s[1..], sep);
      [[s[0]] + rest[0]] + rest[1..]
  }

  lemma {:induction false} SplitWithoutSep(s: string, sep: char)
    requires sep !in s
    ensures Split(s, sep) == [s]
    decreases |s|
  {
    if |s| > 0 {
      assert sep !in s[1..];
      SplitWithoutSep(s[1..], sep);
      assert [s[0]] + s[1..] == s;
    }
  }

  /** Splitting at the first separator: the part before it, then the split
      of the rest. */
  lemma {:induction false} SplitAtFirst(x: string, sep: char, y: string)
    requires sep !in x
    ensures Split(x + [sep] + y, sep) == [x] + Split(y, sep)
    decreases |x|
  {
    var s := x + [sep] + y;
    if |x| == 0 {
      assert s == [sep] + y;
      assert s[1..] == y;
    } else {
      assert s[1..] == x[1..] + [sep] + y;
      assert sep !in x[1..];
      SplitAtFirst(x[1..], sep, y);
      assert [x[0]] + x[1..] == x;
    }
  }

  /** No piece of a split holds the separator. */
  lemma {:induction false} SplitPartsLackSep(s: string, sep: char)
    ensures forall i :: 0 <= i < |Split(s, sep)| ==> sep !in Split(s, sep)[i]
    decreases |s|
  {
    if |s| > 0 {
      SplitPartsLackSep(s[1..], sep);
    }
  }

  /** The first piece of a split is the longest prefix without a separator. */
  lemma {:induction false} SplitFirstIsPrefix(s: string, sep: char)
    ensures StartsWith(s, Split(s, sep)[0])
    ensures sep !in Split(s, sep)[0]
    ensures |Split(s, sep)| >= 2 <==> sep in s
    decreases |s|
  {
    if |s| > 0 && s[0] != sep {
      SplitFirstIsPrefix(s[1..], sep);
      var r := Split(s[1..], sep)[0];
      assert ([s[0]] + r) == s[..|r| + 1] by {
        assert s[1..][..|r|] == r;
      }
      assert sep in s <==> sep in s[1..] by {
        if sep in s {
          var i :| 0 <= i < |s| && s[i] == sep;
          assert s[1..][i - 1] == sep;
        }
      }
    }
  }

  /** `parts.join(sep)` */
  function Join(sep: string, parts: seq<string>): string
    decreases |parts|
  {
    if |parts| == 0 then ""
    else if |parts| == 1 then parts[0]
    else parts[0] + sep + Join(sep, parts[1..])
  }

  /** Every joined part can be found in the joined string. */
  lemma {:induction false} JoinContainsParts(sep: string, parts: seq<string>, i: nat)
    requires i < |parts|
    ensures Occurs(parts[i], Join(sep, parts))
    decreases |parts|
  {
    if |parts| == 1 {
      OccursItself(parts[0]);
    } else if i == 0 {
      OccursItself(parts[0]);
      OccursInContext(parts[0], parts[0], "", sep + Join(sep, parts[1..]));
      assert "" + parts[0] + (sep + Join(sep, parts[1..])) == Join(sep, parts);
    } else {
      JoinContainsParts(sep, parts[1..], i - 1);
      OccursInContext(parts[i], Join(sep, parts[1..]), parts[0] + sep, "");
      assert parts[0] + sep + Join(sep, parts[1..]) + "" == Join(sep, parts);
    }
  }

  /** Joining one-character-or-empty cells: the length of the result counts
      the filled cells. */
  function CountNonEmpty(cells: seq<string>): nat
  {
    if |cells| == 0 then 0
    else (if cells[0] != "" then 1 else 0) + CountNonEmpty(cells[1..])
  }

  lemma {:induction false} JoinEmptySepLength(cells: seq<string>)
    requires forall i :: 0 <= i < |cells| ==> |cells[i]| <= 1
    ensures |Join("", cells)| == CountNonEmpty(cells)
    ensures CountNonEmpty(cells) <= |cells|
    ensures CountNonEmpty(cells) == |cells| <==> forall i :: 0 <= i < |cells| ==> cells[i] != ""
    decreases |cells|
  {
    if |cells| > 1 {
      JoinEmptySepLength(cells[1..]);
      assert forall i :: 1 <= i < |cells| ==> cells[1..][i - 1] == cells[i];
    } else if |cells| == 1 {
      assert CountNonEmpty(cells) == CountNonEmpty([cells[0]]);
    }
  }

  /** Decimal text of an integer, as a template literal renders it. */
  function IntToString(n: int): (r: string)
    ensures |r| > 0
    decreases if n < 0 then 1 - n else n
  {
    if n < 0 then "-" + IntToString(-n)
    else if n < 10 then [['0','1','2','3','4','5','6','7','8','9'][n]]
    else IntToString(n / 10) + IntToString(n % 10)
  }

  /** The decimal text of a non-negative number is all digits. */
  lemma {:induction false} NatStringDigits(n: nat)
    ensures AllDigits(IntToString(n))
    decreases n
  {
    if n >= 10 {
      NatStringDigits(n / 10);
      NatStringDigits(n % 10);
      assert IntToString(n) == IntToString(n / 10) + IntToString(n % 10);
    }
  }

  function Min(a: int, b: int): int { if a <= b then a else b }
  function Max(a: int, b: int): int { if a >= b then a else b }
}
