/** The parts of Go's `strings`, `strconv` and `path/filepath` packages the
    deployment client relies on, over `string` (= `seq<char>`).
    Case mapping covers ASCII letters only. */
module Text {

  import opened Wrappers

  // ---------------------------------------------------------------- case

  predicate IsUpper(c: char) { 'A' <= c <= 'Z' }

  /** An ASCII letter, `[A-Za-z]`. */
  predicate IsLetter(c: char) { 'A' <= c <= 'Z' || 'a' <= c <= 'z' }

  function LowerChar(c: char): char
  {
    if IsUpper(c) then (c as int + 32) as char else c
  }

  /** strings.ToLower, for ASCII letters. */
  function Lower(s: string): (r: string)
    ensures |r| == |s|
    ensures forall i :: 0 <= i < |s| ==> r[i] == LowerChar(s[i])
  {
    seq(|s|, i requires 0 <= i < |s| => LowerChar(s[i]))
  }

  /** Lowering a character neither makes nor removes white space. */
  lemma LowerCharSpace(c: char)
    ensures IsSpace(LowerChar(c)) == IsSpace(c)
  {
  }

  /** No ASCII upper-case letter occurs in `s`. */
  predicate IsLower(s: string)
  {
    forall i :: 0 <= i < |s| ==> !IsUpper(s[i])
  }

  lemma LowerIsLower(s: string)
    ensures IsLower(Lower(s))
  {
  }

  lemma LowerOfLower(s: string)
    requires IsLower(s)
    ensures Lower(s) == s
  {
  }

  lemma LowerIdempotent(s: string)
    ensures Lower(Lower(s)) == Lower(s)
  {
    LowerIsLower(s);
    LowerOfLower(Lower(s));
  }

  lemma LowerConcat(a: string, b: string)
    ensures Lower(a + b) == Lower(a) + Lower(b)
  {
  }

  lemma LowerSlice(s: string, i: int, j: int)
    requires 0 <= i <= j <= |s|
    ensures Lower(s[i..j]) == Lower(s)[i..j]
  {
  }

  /** Lowering every element of a list. */
  function LowerAll(xs: seq<string>): (r: seq<string>)
    ensures |r| == |xs|
    ensures forall k :: 0 <= k < |xs| ==> r[k] == Lower(xs[k])
  {
    seq(|xs|, k requires 0 <= k < |xs| => Lower(xs[k]))
  }

  // ---------------------------------------------------------------- substrings

  predicate IsPrefix(p: string, s: string)
  {
    |p| <= |s| && s[..|p|] == p
  }

  /** `sub` occurs in `s` starting at position `i`. */
  predicate OccursAt(s: string, sub: string, i: int)
  {
    0 <= i && i + |sub| <= |s| && s[i..i + |sub|] == sub
  }

  /** strings.Contains: `sub` occurs somewhere in `s`. */
  predicate Contains(s: string, sub: string)
  {
    exists i :: 0 <= i <= |s| - |sub| && OccursAt(s, sub, i)
  }

  lemma ContainsAt(s: string, sub: string, i: int)
    requires 0 <= i && i + |sub| <= |s| && s[i..i + |sub|] == sub
    ensures Contains(s, sub)
  {
    assert OccursAt(s, sub, i);
  }

  lemma ContainsEmpty(s: string)
    ensures Contains(s, "")
  {
    assert OccursAt(s, "", 0);
  }

  /** Lowering both sides keeps an occurrence. */
  lemma ContainsLower(s: string, sub: string)
    requires Contains(s, sub)
    ensures Contains(Lower(s), Lower(sub))
  {
    var i :| 0 <= i <= |s| - |sub| && OccursAt(s, sub, i);
    LowerSlice(s, i, i + |sub|);
    ContainsAt(Lower(s), Lower(sub), i);
  }

  lemma ContainsSuffix(s: string, k: int)
    requires 0 <= k <= |s|
    ensures Contains(s, s[k..])
  {
    ContainsAt(s, s[k..], k);
  }

  lemma ContainsOfPrefix(s: string, t: string, sub: string)
    requires IsPrefix(t, s) && Contains(t, sub)
    ensures Contains(s, sub)
  {
    var i :| 0 <= i <= |t| - |sub| && OccursAt(t, sub, i);
    assert s[i..i + |sub|] == t[i..i + |sub|];
    ContainsAt(s, sub, i);
  }

  // ---------------------------------------------------------------- white space

  /** unicode.IsSpace on the characters Go's TrimSpace treats as space below U+0100. */
  predicate IsSpace(c: char)
  {
    c == ' ' || c == '\t' || c == '\n' || c == '\r' || c == '\U{B}' || c == '\U{C}'
    || c == '\U{85}' || c == '\U{A0}'
  }

  function TrimLeft(s: string): (r: string)
    ensures |r| <= |s| && r == s[|s| - |r|..]
    ensures forall i :: 0 <= i < |s| - |r| ==> IsSpace(s[i])
    ensures |r| > 0 ==> !IsSpace(r[0])
  {
    if |s| > 0 && IsSpace(s[0]) then TrimLeft(s[1..]) else s
  }

  function TrimRight(s: string): (r: string)
    ensures |r| <= |s| && r == s[..|r|]
    ensures forall i :: |r| <= i < |s| ==> IsSpace(s[i])
    ensures |r| > 0 ==> !IsSpace(r[|r| - 1])
  {
    if |s| > 0 && IsSpace(s[|s| - 1]) then TrimRight(s[..|s| - 1]) else s
  }

  /** strings.TrimSpace: `s` without its leading and trailing white space. */
  function TrimSpace(s: string): (r: string)
    ensures |r| <= |s|
    ensures |r| > 0 ==> !IsSpace(r[0]) && !IsSpace(r[|r| - 1])
  {
    TrimRight(TrimLeft(s))
  }

  lemma TrimSpaceOfTrimmed(s: string)
    requires |s| > 0 ==> !IsSpace(s[0]) && !IsSpace(s[|s| - 1])
    ensures TrimSpace(s) == s
  {
  }

  /** A slice keeps only characters of the sequence it is cut from. */
  lemma SliceChars(s: string, i: int, j: int)
    requires 0 <= i <= j <= |s|
    ensures forall c :: c in s[i..j] ==> c in s
  {
    forall c | c in s[i..j]
      ensures c in s
    {
      var k :| 0 <= k < j - i && s[i..j][k] == c;
      assert s[i + k] == c;
    }
  }

  /** TrimSpace keeps only characters of its input. */
  lemma TrimSpaceChars(s: string)
    ensures forall c :: c in TrimSpace(s) ==> c in s
  {
    var l := TrimLeft(s);
    var r := TrimRight(l);
    var a := |s| - |l|;
    assert l == s[a..];
    assert r == s[a..a + |r|];
    SliceChars(s, a, a + |r|);
  }

  /** The trimmed form of a suffix occurs in the text. */
  lemma TrimmedSliceOccurs(s: string, k: int)
    requires 0 <= k <= |s|
    ensures Contains(s, TrimSpace(s[k..]))
  {
    var l := TrimLeft(s[k..]);
    var r := TrimRight(l);
    var a := k + |s[k..]| - |l|;
    assert l == s[a..];
    assert r == s[a..a + |r|];
    ContainsAt(s, r, a);
  }

  /** Trimming adds no character. */
  lemma TrimmedLacks(s: string, c: char)
    requires c !in s
    ensures c !in TrimSpace(s)
  {
    TrimSpaceChars(s);
  }

  lemma {:induction false} TrimLeftOfSpaces(sp: string, t: string)
    requires forall i :: 0 <= i < |sp| ==> IsSpace(sp[i])
    ensures TrimLeft(sp + t) == TrimLeft(t)
  {
    if sp != [] {
      assert (sp + t)[0] == sp[0];
      assert (sp + t)[1..] == sp[1..] + t;
      TrimLeftOfSpaces(sp[1..], t);
    } else {
      assert sp + t == t;
    }
  }

  lemma {:induction false} TrimRightOfSpaces(t: string, sp: string)
    requires forall i :: 0 <= i < |sp| ==> IsSpace(sp[i])
    ensures TrimRight(t + sp) == TrimRight(t)
  {
    if sp != [] {
      assert (t + sp)[|t + sp| - 1] == sp[|sp| - 1];
      assert (t + sp)[..|t + sp| - 1] == t + sp[..|sp| - 1];
      TrimRightOfSpaces(t, sp[..|sp| - 1]);
    } else {
      assert t + sp == t;
    }
  }

  /** Surrounding white space is all TrimSpace removes. */
  lemma TrimSpaceAround(before: string, core: string, after: string)
    requires forall i :: 0 <= i < |before| ==> IsSpace(before[i])
    requires forall i :: 0 <= i < |after| ==> IsSpace(after[i])
    requires |core| > 0 && !IsSpace(core[0]) && !IsSpace(core[|core| - 1])
    ensures TrimSpace(before + core + after) == core
  {
    assert before + core + after == before + (core + after);
    TrimLeftOfSpaces(before, core + after);
    TrimRightOfSpaces(core, after);
  }

  // ---------------------------------------------------------------- split and join

  function Count(s: string, c: char): nat
  {
    if s == [] then 0 else (if s[0] == c then 1 else 0) + Count(s[1..], c)
  }

  /** No occurrence counted, no occurrence. */
  lemma {:induction false} CountZero(s: string, c: char)
    ensures Count(s, c) == 0 <==> c !in s
  {
    if s != [] {
      CountZero(s[1..], c);
      assert s == [s[0]] + s[1..];
    }
  }

  /** strings.Split with a one-character separator: the pieces between separators,
      always one more than the number of separators. */
  function Split(s: string, sep: char): (r: seq<string>)
    ensures |r| == Count(s, sep) + 1
    ensures forall k :: 0 <= k < |r| ==> sep !in r[k]
  {
    if s == [] then [""]
    else
      var rest := Split(s[1..], sep);
      if s[0] == sep then [""] + rest else [[s[0]] + rest[0]] + rest[1..]
  }

  /** strings.Join. */
  function Join(parts: seq<string>, sep: string): string
  {
    if parts == [] then ""
    else if |parts| == 1 then parts[0]
    else parts[0] + sep + Join(parts[1..], sep)
  }

  lemma {:induction false} SplitNoSeparator(s: string, sep: char)
    requires sep !in s
    ensures Split(s, sep) == [s]
  {
    if s != [] {
      SplitNoSeparator(s[1..], sep);
      assert [s[0]] + s[1..] == s;
    }
  }

  lemma {:induction false} SplitAtSeparator(a: string, sep: char, b: string)
    requires sep !in a
    ensures Split(a + [sep] + b, sep) == [a] + Split(b, sep)
  {
    var s := a + [sep] + b;
    if a == [] {
      assert s[1..] == b;
    } else {
      assert s[1..] == a[1..] + [sep] + b;
      SplitAtSeparator(a[1..], sep, b);
      assert [a[0]] + a[1..] == a;
    }
  }

  /** Joining the pieces with the separator gives the text back. */
  lemma {:induction false} JoinSplit(s: string, sep: char)
    ensures Join(Split(s, sep), [sep]) == s
  {
    if s != [] {
      JoinSplit(s[1..], sep);
      var rest := Split(s[1..], sep);
      if s[0] == sep {
        assert Join([""] + rest, [sep]) == "" + [sep] + Join(rest, [sep]);
      } else if |rest| > 1 {
        assert ([[s[0]] + rest[0]] + rest[1..])[1..] == rest[1..];
      }
    }
  }

  /** Splitting a join of separator-free pieces gives the pieces back. */
  lemma {:induction false} SplitJoin(parts: seq<string>, sep: char)
    requires |parts| >= 1
    requires forall k :: 0 <= k < |parts| ==> sep !in parts[k]
    ensures Split(Join(parts, [sep]), sep) == parts
  {
    if |parts| == 1 {
      SplitNoSeparator(parts[0], sep);
    } else {
      SplitJoin(parts[1..], sep);
      SplitAtSeparator(parts[0], sep, Join(parts[1..], [sep]));
    }
  }

  /** A trailing separator adds one empty piece at the end. */
  lemma {:induction false} SplitTrailing(s: string, sep: char)
    ensures Split(s + [sep], sep) == Split(s, sep) + [""]
  {
    if s != [] {
      assert (s + [sep])[1..] == s[1..] + [sep];
      SplitTrailing(s[1..], sep);
    }
  }

  /** A text made of separators only splits into empty pieces. */
  lemma {:induction false} SplitOfSeparators(s: string, sep: char)
    requires forall i :: 0 <= i < |s| ==> s[i] == sep
    ensures forall k :: 0 <= k < |Split(s, sep)| ==> Split(s, sep)[k] == ""
  {
    if s != [] {
      SplitOfSeparators(s[1..], sep);
    }
  }

  /** The first piece of a split is a prefix of the text. */
  lemma {:induction false} SplitFirstIsPrefix(s: string, sep: char)
    ensures IsPrefix(Split(s, sep)[0], s)
  {
    if s != [] && s[0] != sep {
      SplitFirstIsPrefix(s[1..], sep);
    }
  }

  /** Lowering commutes with splitting on a separator that is not a letter. */
  lemma {:induction false} LowerSplit(s: string, sep: char)
    requires !('A' <= sep <= 'Z') && !('a' <= sep <= 'z')
    ensures Split(Lower(s), sep) == LowerAll(Split(s, sep))
  {
    if s != [] {
      var ls := Lower(s);
      LowerSlice(s, 1, |s|);
      assert s[1..|s|] == s[1..] && ls[1..|s|] == ls[1..];
      LowerSplit(s[1..], sep);
      var rest := Split(s[1..], sep);
      var lrest := Split(ls[1..], sep);
      assert lrest == LowerAll(rest);
      assert ls[0] == LowerChar(s[0]);
      assert ls[0] == sep <==> s[0] == sep;
      if s[0] == sep {
        assert Split(s, sep) == [""] + rest;
        assert Split(ls, sep) == [""] + lrest;
        LowerAllCons("", rest);
      } else {
        assert Split(s, sep) == [[s[0]] + rest[0]] + rest[1..];
        assert Split(ls, sep) == [[ls[0]] + lrest[0]] + lrest[1..];
        LowerConcat([s[0]], rest[0]);
        assert Lower([s[0]]) == [ls[0]];
        assert rest == [rest[0]] + rest[1..];
        LowerAllCons(rest[0], rest[1..]);
        LowerAllCons([s[0]] + rest[0], rest[1..]);
      }
    }
  }

  lemma LowerAllCons(x: string, xs: seq<string>)
    ensures LowerAll([x] + xs) == [Lower(x)] + LowerAll(xs)
  {
  }

  function Last<T>(xs: seq<T>): T
    requires |xs| > 0
  {
    xs[|xs| - 1]
  }

  /** The last piece of a split is a suffix of the text: the one from `k` on. */
  lemma {:induction false} SplitLastIsSuffix(s: string, sep: char) returns (k: nat)
    ensures k <= |s| && Last(Split(s, sep)) == s[k..]
  {
    if s == [] {
      return 0;
    }
    var rest := Split(s[1..], sep);
    var j := SplitLastIsSuffix(s[1..], sep);
    assert s[1..][j..] == s[j + 1..];
    var pieces := Split(s, sep);
    if s[0] == sep {
      assert pieces == [""] + rest;
      k := j + 1;
    } else if |rest| > 1 {
      assert pieces == [[s[0]] + rest[0]] + rest[1..];
      assert Last(pieces) == Last(rest);
      k := j + 1;
    } else {
      assert pieces == [[s[0]] + rest[0]];
      JoinSplit(s[1..], sep);
      assert rest == [rest[0]];
      assert Join(rest, [sep]) == rest[0];
      assert Last(pieces) == [s[0]] + s[1..] == s[0..];
      k := 0;
    }
  }

  // ---------------------------------------------------------------- search and replace

  /** strings.Index for one character: the first position of `c`. */
  function IndexOf(s: string, c: char): (r: Option<nat>)
    ensures r.Some? ==> r.value < |s| && s[r.value] == c && c !in s[..r.value]
    ensures r.None? ==> c !in s
  {
    if s == [] then None
    else if s[0] == c then Some(0)
    else match IndexOf(s[1..], c)
      case None => None
      case Some(i) => assert s[..i + 1] == [s[0]] + s[1..][..i]; Some(i + 1)
  }

  /** strings.ReplaceAll for one character by one character. */
  function ReplaceChar(s: string, from: char, to: char): (r: string)
    ensures |r| == |s|
    ensures forall i :: 0 <= i < |s| ==> r[i] == if s[i] == from then to else s[i]
  {
    seq(|s|, i requires 0 <= i < |s| => if s[i] == from then to else s[i])
  }

  // ---------------------------------------------------------------- file paths

  function TrimTrailingSlashes(s: string): (r: string)
    ensures IsPrefix(r, s)
  {
    if |s| > 0 && s[|s| - 1] == '/' then TrimTrailingSlashes(s[..|s| - 1]) else s
  }

  /** The text after the last "/" of `s` (all of `s` when it has none). */
  function AfterLastSlash(s: string): string
  {
    if s == [] || s[|s| - 1] == '/' then [] else AfterLastSlash(s[..|s| - 1]) + [s[|s| - 1]]
  }

  /** It is the longest slash-free suffix. */
  lemma {:induction false} AfterLastSlashIsSuffix(s: string)
    ensures |AfterLastSlash(s)| <= |s| && AfterLastSlash(s) == s[|s| - |AfterLastSlash(s)|..]
    ensures '/' !in AfterLastSlash(s)
    ensures |AfterLastSlash(s)| < |s| ==> s[|s| - |AfterLastSlash(s)| - 1] == '/'
  {
    if s != [] && s[|s| - 1] != '/' {
      var p := s[..|s| - 1];
      AfterLastSlashIsSuffix(p);
      var q := AfterLastSlash(p);
      assert AfterLastSlash(s) == q + [s[|s| - 1]];
      assert s[|s| - |q| - 1..] == p[|p| - |q|..] + [s[|s| - 1]];
    }
  }

  /** filepath.Base: the last element of the path, trailing slashes ignored;
      "." for the empty path and "/" for a path of slashes only. */
  function Base(path: string): string
  {
    if path == "" then "."
    else
      var t := TrimTrailingSlashes(path);
      if t == "" then "/" else AfterLastSlash(t)
  }

  /** The base name of a non-empty path occurs in the path. */
  lemma BaseInPath(path: string)
    requires path != ""
    ensures Contains(path, Base(path))
  {
    var t := TrimTrailingSlashes(path);
    if t == "" {
      assert path[|path| - 1] == '/';
      ContainsAt(path, "/", |path| - 1);
    } else {
      var b := AfterLastSlash(t);
      AfterLastSlashIsSuffix(t);
      assert Base(path) == b;
      ContainsSuffix(t, |t| - |b|);
      assert t[|t| - |b|..] == b;
      assert IsPrefix(t, path);
      ContainsOfPrefix(path, t, b);
    }
  }

  /** filepath.Ext: the suffix from the final dot of the last path element, or "". */
  function Ext(path: string): (r: string)
    ensures |r| <= |path| && r == path[|path| - |r|..]
    ensures r != "" ==> r[0] == '.' && '/' !in r && '.' !in r[1..]
  {
    if |path| == 0 || path[|path| - 1] == '/' then ""
    else if path[|path| - 1] == '.' then "."
    else
      var e := Ext(path[..|path| - 1]);
      if e == "" then "" else e + [path[|path| - 1]]
  }

  // ---------------------------------------------------------------- numbers

  function DigitChar(d: nat): char
    requires d < 10
  {
    ('0' as int + d) as char
  }

  function NatDigits(n: nat): (r: string)
    ensures |r| > 0
    decreases n
  {
    if n < 10 then [DigitChar(n)] else NatDigits(n / 10) + [DigitChar(n % 10)]
  }

  lemma {:induction false} NatDigitsAreDigits(n: nat)
    ensures forall i :: 0 <= i < |NatDigits(n)| ==> '0' <= NatDigits(n)[i] <= '9'
    decreases n
  {
    if n >= 10 {
      NatDigitsAreDigits(n / 10);
      var front := NatDigits(n / 10);
      assert NatDigits(n) == front + [DigitChar(n % 10)];
      forall i | 0 <= i < |NatDigits(n)|
        ensures '0' <= NatDigits(n)[i] <= '9'
      {
        if i < |front| {
          assert NatDigits(n)[i] == front[i];
        }
      }
    }
  }

  /** The `%d` rendering of an integer. */
  function Decimal(n: int): (r: string)
    ensures |r| > 0
  {
    if n < 0 then "-" + NatDigits(-n) else NatDigits(n)
  }

  /** A rendered integer is a sign and digits only. */
  lemma DecimalChars(n: int)
    ensures forall i :: 0 <= i < |Decimal(n)| ==> Decimal(n)[i] == '-' || '0' <= Decimal(n)[i] <= '9'
  {
    if n < 0 {
      var digits := NatDigits(-n);
      NatDigitsAreDigits(-n);
      assert Decimal(n) == "-" + digits;
      forall i | 0 <= i < |Decimal(n)|
        ensures Decimal(n)[i] == '-' || '0' <= Decimal(n)[i] <= '9'
      {
        if i > 0 {
          assert Decimal(n)[i] == digits[i - 1];
        }
      }
    } else {
      NatDigitsAreDigits(n);
    }
  }
}
