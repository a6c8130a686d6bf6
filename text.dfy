/**
 * The JavaScript string operations the pages rely on, over `string`
 * (`seq<char>`): truthiness of nullable strings, ASCII case mapping,
 * `trim`, `split`, `join`, `startsWith`/`endsWith`/`includes`, `slice`
 * and `replace` of the first occurrence of a character.
 */
module Text {
  import opened Base

  /** JavaScript truthiness of a nullable string: present and not empty. */
  predicate Truthy(s: Option<string>)
  {
    s.Some? && s.value != ""
  }

  /** `s || fallback` for a nullable string. */
  function OrElse(s: Option<string>, fallback: string): (r: string)
    ensures Truthy(s) ==> r == s.value
    ensures !Truthy(s) ==> r == fallback
  {
    if Truthy(s) then s.value else fallback
  }

  // ---------- case mapping (ASCII letters only) ----------

  function LowerChar(c: char): char
  {
    if 'A' <= c <= 'Z' then (c as int + 32) as char else c
  }

  function UpperChar(c: char): char
  {
    if 'a' <= c <= 'z' then (c as int - 32) as char else c
  }

  /** `s.toLowerCase()`, restricted to the ASCII letters. */
  function Lower(s: string): (r: string)
    ensures |r| == |s|
    ensures forall i :: 0 <= i < |s| ==> r[i] == LowerChar(s[i])
  {
    seq(|s|, i requires 0 <= i < |s| => LowerChar(s[i]))
  }

  lemma LowerIdempotent(s: string)
    ensures Lower(Lower(s)) == Lower(s)
  {
  }

  /** `s.charAt(0).toUpperCase()`: the empty string when `s` is empty. */
  function UpperFirst(s: string): (r: string)
    ensures |r| <= 1
    ensures s != "" ==> r == [UpperChar(s[0])]
  {
    if s == "" then "" else [UpperChar(s[0])]
  }

  // ---------- trim ----------

  /** The characters `String.prototype.trim` removes: white space and line terminators. */
  predicate IsWhiteSpace(c: char)
  {
    var n := c as int;
    n == 0x09 || n == 0x0A || n == 0x0B || n == 0x0C || n == 0x0D || n == 0x20
    || n == 0xA0 || n == 0x1680 || (0x2000 <= n <= 0x200A) || n == 0x2028 || n == 0x2029
    || n == 0x202F || n == 0x205F || n == 0x3000 || n == 0xFEFF
  }

  /** `s` without its leading white space. */
  function TrimStart(s: string): (r: string)
    ensures |r| <= |s|
    decreases |s|
  {
    if s != "" && IsWhiteSpace(s[0]) then TrimStart(s[1..]) else s
  }

  /** `s` without its trailing white space. */
  function TrimEnd(s: string): (r: string)
    ensures |r| <= |s|
    decreases |s|
  {
    if s != "" && IsWhiteSpace(s[|s| - 1]) then TrimEnd(s[..|s| - 1]) else s
  }

  /** `TrimStart` removes exactly the leading run of white space. */
  lemma {:induction false} TrimStartSpec(s: string)
    ensures var r := TrimStart(s);
      r == s[|s| - |r|..]
      && (r != "" ==> !IsWhiteSpace(r[0]))
      && (forall i :: 0 <= i < |s| - |r| ==> IsWhiteSpace(s[i]))
    decreases |s|
  {
    if s != "" && IsWhiteSpace(s[0]) {
      TrimStartSpec(s[1..]);
    }
  }

  /** `TrimEnd` removes exactly the trailing run of white space. */
  lemma {:induction false} TrimEndSpec(s: string)
    ensures var r := TrimEnd(s);
      r == s[..|r|]
      && (r != "" ==> !IsWhiteSpace(r[|r| - 1]))
      && (forall i :: |r| <= i < |s| ==> IsWhiteSpace(s[i]))
    decreases |s|
  {
    if s != "" && IsWhiteSpace(s[|s| - 1]) {
      TrimEndSpec(s[..|s| - 1]);
    }
  }

  /** `s.trim()`; `TrimSpec` states what it removes. */
  function Trim(s: string): (r: string)
    ensures |r| <= |s|
  {
    TrimEnd(TrimStart(s))
  }

  /** The trimmed string is a piece of the original with no white space at either end. */
  lemma TrimSpec(s: string)
    ensures var r, k := Trim(s), |s| - |TrimStart(s)|;
      k + |r| <= |s| && r == s[k..k + |r|]
      && (forall i :: 0 <= i < k ==> IsWhiteSpace(s[i]))
      && (forall i :: k + |r| <= i < |s| ==> IsWhiteSpace(s[i]))
      && (r != "" ==> !IsWhiteSpace(r[0]) && !IsWhiteSpace(r[|r| - 1]))
  {
    var t := TrimStart(s);
    TrimStartSpec(s);
    TrimEndSpec(t);
    var r := Trim(s);
    var k := |s| - |t|;
    assert r == t[..|r|];
    assert r == s[k..k + |r|];
    assert forall i :: k + |r| <= i < |s| ==> s[i] == t[i - k];
  }

  /** A string trims to nothing exactly when it is all white space. */
  lemma TrimBlank(s: string)
    ensures Trim(s) == "" <==> forall i :: 0 <= i < |s| ==> IsWhiteSpace(s[i])
  {
    var t := TrimStart(s);
    TrimStartSpec(s);
    TrimEndSpec(t);
    if forall i :: 0 <= i < |s| ==> IsWhiteSpace(s[i]) {
      assert t == "";
    } else {
      var i :| 0 <= i < |s| && !IsWhiteSpace(s[i]);
      var k := |s| - |t|;
      assert k <= i;
      assert t[i - k] == s[i];
    }
  }

  // ---------- split and join ----------

  /** `s.split(sep)` for a one-character separator: always at least one part. */
  function Split(s: string, sep: char): (parts: seq<string>)
    ensures |parts| >= 1
    ensures forall p :: p in parts ==> sep !in p
    decreases |s|
  {
    if s == "" then [""]
    else
      var rest := Split(s[1..], sep);
      if s[0] == sep then [""] + rest
      else [[s[0]] + rest[0]] + rest[1..]
  }

  /** `parts.join(sep)`. */
  function Join(parts: seq<string>, sep: string): string
    decreases |parts|
  {
    if parts == [] then ""
    else if |parts| == 1 then parts[0]
    else parts[0] + sep + Join(parts[1..], sep)
  }

  /** Joining the parts of a split with the separator gives the string back. */
  lemma {:induction false} JoinSplit(s: string, sep: char)
    ensures Join(Split(s, sep), [sep]) == s
    decreases |s|
  {
    if s != "" {
      var rest := Split(s[1..], sep);
      JoinSplit(s[1..], sep);
      if s[0] == sep {
        assert Join([""] + rest, [sep]) == "" + [sep] + Join(rest, [sep]);
      } else {
        var parts := [[s[0]] + rest[0]] + rest[1..];
        if |rest| == 1 {
          assert parts == [[s[0]] + rest[0]];
        } else {
          assert parts[1..] == rest[1..];
          assert Join(rest, [sep]) == rest[0] + [sep] + Join(rest[1..], [sep]);
        }
        assert s == [s[0]] + s[1..];
      }
    }
  }

  lemma {:induction false} JoinSnoc(parts: seq<string>, x: string, sep: string)
    requires parts != []
    ensures Join(parts + [x], sep) == Join(parts, sep) + sep + x
    decreases |parts|
  {
    if |parts| == 1 {
      assert parts + [x] == [parts[0], x];
      assert [parts[0], x][1..] == [x];
    } else {
      assert (parts + [x])[1..] == parts[1..] + [x];
      JoinSnoc(parts[1..], x, sep);
    }
  }

  /** The text before the first `sep`: `s.split(sep)[0]`. */
  function BeforeFirst(s: string, sep: char): (r: string)
    ensures sep !in r
    ensures |r| <= |s| && r == s[..|r|]
    ensures |r| < |s| ==> s[|r|] == sep
    decreases |s|
  {
    if s == "" || s[0] == sep then "" else [s[0]] + BeforeFirst(s[1..], sep)
  }

  lemma {:induction false} BeforeFirstIsFirstPart(s: string, sep: char)
    ensures BeforeFirst(s, sep) == Split(s, sep)[0]
    decreases |s|
  {
    if s != "" {
      BeforeFirstIsFirstPart(s[1..], sep);
    }
  }

  /** The text after the last `sep`, or all of `s` when it has none. */
  function AfterLast(s: string, sep: char): (r: string)
    ensures sep !in r
    ensures |r| <= |s| && r == s[|s| - |r|..]
    ensures |r| < |s| ==> s[|s| - |r| - 1] == sep
    ensures sep !in s ==> r == s
    decreases |s|
  {
    if s == "" then ""
    else if sep in s[1..] then AfterLast(s[1..], sep)
    else if s[0] == sep then s[1..]
    else s
  }

  /** After the last separator of `a`, a separator and a text without one comes that text. */
  lemma {:induction false} AfterLastOfJoin(a: string, b: string, sep: char)
    requires sep !in b
    ensures AfterLast(a + [sep] + b, sep) == b
    decreases |a|
  {
    var s := a + [sep] + b;
    if a == "" {
      assert s[1..] == b;
    } else {
      assert s[1..] == a[1..] + [sep] + b;
      assert sep in s[1..];
      AfterLastOfJoin(a[1..], b, sep);
    }
  }

  /** A split has a single part exactly when the separator does not occur, and that part is the whole string. */
  lemma {:induction false} SplitSingle(s: string, sep: char)
    ensures |Split(s, sep)| == 1 <==> sep !in s
    ensures sep !in s ==> Split(s, sep) == [s]
    decreases |s|
  {
    if s != "" {
      SplitSingle(s[1..], sep);
      assert s == [s[0]] + s[1..];
    }
  }

  /** `parts[parts.length - 1]`: the last part of a split is the text after the last separator. */
  lemma {:induction false} SplitLast(s: string, sep: char)
    ensures var parts := Split(s, sep); parts[|parts| - 1] == AfterLast(s, sep)
    decreases |s|
  {
    if s != "" {
      var rest := Split(s[1..], sep);
      SplitLast(s[1..], sep);
      SplitSingle(s[1..], sep);
      if s[0] != sep && |rest| == 1 {
        assert s == [s[0]] + s[1..];
      }
    }
  }

  /** The first word of a line of words separated by single spaces. */
  function FirstWord(s: string): string
  {
    BeforeFirst(s, ' ')
  }

  lemma {:induction false} FirstWordOfJoin(a: string, b: string)
    ensures FirstWord(a + " " + b) == FirstWord(a)
    decreases |a|
  {
    if a != "" && a[0] != ' ' {
      assert (a + " " + b)[1..] == a[1..] + " " + b;
      FirstWordOfJoin(a[1..], b);
    }
  }

  lemma {:induction false} FirstWordOfWord(a: string)
    requires ' ' !in a
    ensures FirstWord(a) == a
    decreases |a|
  {
    if a != "" {
      FirstWordOfWord(a[1..]);
    }
  }

  // ---------- search ----------

  predicate StartsWith(s: string, prefix: string)
  {
    |prefix| <= |s| && s[..|prefix|] == prefix
  }

  predicate EndsWith(s: string, suffix: string)
  {
    |suffix| <= |s| && s[|s| - |suffix|..] == suffix
  }

  /** `s.includes(t)`: the empty string is found everywhere. */
  predicate Contains(s: string, t: string)
    decreases |s|
  {
    StartsWith(s, t) || (s != "" && Contains(s[1..], t))
  }

  /** `s.slice(0, n)`. */
  function Prefix(s: string, n: nat): (r: string)
    ensures |r| == if n < |s| then n else |s|
    ensures StartsWith(s, r)
  {
    if n < |s| then s[..n] else s
  }

  /** `s.replace(" ", "-")`: only the first space is replaced, as `LearningPaths.ReplaceSpaceAfterWord` states. */
  function ReplaceFirstSpace(s: string): (r: string)
    ensures |r| == |s|
    ensures ' ' !in s ==> r == s
    decreases |s|
  {
    if s == "" then ""
    else if s[0] == ' ' then "-" + s[1..]
    else [s[0]] + ReplaceFirstSpace(s[1..])
  }
}
