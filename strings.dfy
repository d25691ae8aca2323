/** The Python `str` operations the services rely on (truthiness, `in`,
    `lower`, `strip`, `replace`, `split`, `join`, `title`), restricted to
    ASCII: every other character is treated as uncased and not whitespace. */
module Strings {
  import opened Wrappers

  /** Python truthiness of an optional `str`: present and not empty. */
  predicate Given(s: Option<string>) {
    s.Some? && s.value != ""
  }

  /** How an f-string prints an optional `str`: None prints as "None". */
  function Render(s: Option<string>): string {
    if s.Some? then s.value else "None"
  }

  /** `str.isspace` on ASCII: HT, LF, VT, FF, CR, the separators 0x1C-0x1F, and space. */
  predicate IsSpace(c: char) {
    9 <= c as int <= 13 || 28 <= c as int <= 32
  }

  predicate IsUpper(c: char) { 'A' <= c <= 'Z' }
  predicate IsLower(c: char) { 'a' <= c <= 'z' }
  predicate IsCased(c: char) { IsUpper(c) || IsLower(c) }

  function ToLower(c: char): (r: char)
    ensures IsCased(r) == IsCased(c) && !IsUpper(r)
    ensures !IsCased(c) ==> r == c
  {
    if IsUpper(c) then (c as int + 32) as char else c
  }

  function ToUpper(c: char): (r: char)
    ensures IsCased(r) == IsCased(c) && !IsLower(r)
    ensures !IsCased(c) ==> r == c
  {
    if IsLower(c) then (c as int - 32) as char else c
  }

  /** `str.lower()`. */
  function Lower(s: string): (r: string)
    ensures |r| == |s| && forall i :: 0 <= i < |s| ==> r[i] == ToLower(s[i])
  {
    seq(|s|, i requires 0 <= i < |s| => ToLower(s[i]))
  }

  /** `str.title()`: a cased character is upper-cased when the character
      before it is not cased, and lower-cased otherwise. */
  function Title(s: string): (r: string)
    ensures |r| == |s|
    ensures forall i :: 0 <= i < |s| ==> (IsCased(r[i]) <==> IsCased(s[i]))
    ensures forall i :: 0 <= i < |s| && !IsCased(s[i]) ==> r[i] == s[i]
    ensures forall i :: 0 <= i < |s| && IsCased(s[i]) ==>
              (IsUpper(r[i]) <==> (i == 0 || !IsCased(s[i - 1])))
  {
    seq(|s|, i requires 0 <= i < |s| =>
      if i > 0 && IsCased(s[i - 1]) then ToLower(s[i]) else ToUpper(s[i]))
  }

  /** The character at `i` begins a run of cased characters. */
  predicate StartsWord(s: string, i: nat)
    requires i < |s|
  {
    i == 0 || !IsCased(s[i - 1])
  }

  /** A string already in title case is its own title-casing. */
  lemma TitleFixed(s: string)
    requires forall i: nat | i < |s| && IsCased(s[i]) :: IsUpper(s[i]) <==> StartsWord(s, i)
    ensures Title(s) == s
  {
    forall i | 0 <= i < |s| ensures Title(s)[i] == s[i] {
      var c := s[i];
      assert Title(s)[i] == if i > 0 && IsCased(s[i - 1]) then ToLower(c) else ToUpper(c);
      if IsCased(c) {
        assert IsUpper(c) <==> StartsWord(s, i);
      }
    }
  }

  // ---------------------------------------------------------------- `in`

  predicate OccursAt(s: string, sub: string, i: nat) {
    i + |sub| <= |s| && s[i..i + |sub|] == sub
  }

  /** Python's `sub in s`. */
  predicate Contains(s: string, sub: string) {
    exists i: nat :: i <= |s| && OccursAt(s, sub, i)
  }

  /** Every character of a substring occurs in the string. */
  lemma ContainsChar(s: string, sub: string, c: char)
    requires Contains(s, sub) && c in sub
    ensures c in s
  {
    var i: nat :| i <= |s| && OccursAt(s, sub, i);
    var k :| 0 <= k < |sub| && sub[k] == c;
    assert s[i..i + |sub|][k] == s[i + k];
  }

  /** Lower-casing commutes with taking a substring. */
  lemma LowerOccurs(s: string, t: string, i: nat)
    requires OccursAt(s, t, i)
    ensures OccursAt(Lower(s), Lower(t), i)
  {
    var ls := Lower(s);
    forall k | 0 <= k < |t|
      ensures ls[i..i + |t|][k] == Lower(t)[k]
    {
      assert s[i..i + |t|][k] == s[i + k];
    }
    assert ls[i..i + |t|] == Lower(t);
  }

  // ------------------------------------------------------------- `strip`

  /** `str.lstrip()`: drops the leading whitespace. */
  function LStrip(s: string): (r: string)
    ensures |r| <= |s| && r == s[|s| - |r|..]
    ensures forall i :: 0 <= i < |s| - |r| ==> IsSpace(s[i])
    ensures r != [] ==> !IsSpace(r[0])
  {
    if s != [] && IsSpace(s[0]) then LStrip(s[1..]) else s
  }

  /** `str.rstrip()`: drops the trailing whitespace. */
  function RStrip(s: string): (r: string)
    ensures |r| <= |s| && r == s[..|r|]
    ensures forall i :: |r| <= i < |s| ==> IsSpace(s[i])
    ensures r != [] ==> !IsSpace(r[|r| - 1])
  {
    if s != [] && IsSpace(s[|s| - 1]) then RStrip(s[..|s| - 1]) else s
  }

  /** `str.strip()`. */
  function Strip(s: string): string {
    RStrip(LStrip(s))
  }

  /** A string with no whitespace at either end is its own strip. */
  lemma StripTrimmed(s: string)
    requires s != [] && !IsSpace(s[0]) && !IsSpace(s[|s| - 1])
    ensures Strip(s) == s
  {
  }

  // ----------------------------------------------------------- `replace`

  /** `s.replace(pat, rep)`: every non-overlapping occurrence of `pat`,
      scanning from the left, is replaced by `rep`. */
  function Replace(s: string, pat: string, rep: string): string
    requires pat != ""
    decreases |s|
  {
    if |s| < |pat| then s
    else if s[..|pat|] == pat then rep + Replace(s[|pat|..], pat, rep)
    else [s[0]] + Replace(s[1..], pat, rep)
  }

  /** Replacing cannot introduce a character that neither the string nor
      the replacement holds. */
  lemma {:induction false} ReplaceAvoids(s: string, pat: string, rep: string, c: char)
    requires pat != "" && c !in s && c !in rep
    ensures c !in Replace(s, pat, rep)
    decreases |s|
  {
    if |s| < |pat| {
    } else if s[..|pat|] == pat {
      assert forall k :: 0 <= k < |s| - |pat| ==> s[|pat|..][k] == s[|pat| + k];
      ReplaceAvoids(s[|pat|..], pat, rep, c);
    } else {
      assert forall k :: 0 <= k < |s| - 1 ==> s[1..][k] == s[1 + k];
      ReplaceAvoids(s[1..], pat, rep, c);
    }
  }

  /** Replacing a one-character pattern by "" deletes that character. */
  lemma {:induction false} ReplaceDeletes(s: string, c: char)
    ensures c !in Replace(s, [c], "")
    decreases |s|
  {
    if |s| < 1 {
    } else if s[..1] == [c] {
      ReplaceDeletes(s[1..], c);
    } else {
      assert s[0] != c by { assert s[..1][0] == s[0]; }
      ReplaceDeletes(s[1..], c);
    }
  }

  /** Replacing a pattern whose first character does not occur changes
      nothing. */
  lemma {:induction false} ReplaceAbsent(s: string, pat: string, rep: string)
    requires pat != "" && pat[0] !in s
    ensures Replace(s, pat, rep) == s
    decreases |s|
  {
    if |s| >= |pat| {
      assert s[..|pat|][0] == s[0];
      assert pat[0] !in s[1..] by { assert forall c | c in s[1..] :: c in s; }
      ReplaceAbsent(s[1..], pat, rep);
      assert [s[0]] + s[1..] == s;
    }
  }

  /** Text before the first possible match is copied, and the match is
      replaced. */
  lemma {:induction false} ReplaceAt(a: string, pat: string, rep: string, b: string)
    requires pat != "" && pat[0] !in a
    ensures Replace(a + pat + b, pat, rep) == a + rep + Replace(b, pat, rep)
    decreases |a|
  {
    var s := a + pat + b;
    if a == [] {
      assert s == pat + b && s[..|pat|] == pat && s[|pat|..] == b;
    } else {
      var tail := a[1..] + pat + b;
      calc {
        Replace(s, pat, rep);
        { assert s[..|pat|][0] == a[0]; assert s[1..] == tail; }
        [a[0]] + Replace(tail, pat, rep);
        { assert pat[0] !in a[1..] by { assert forall c | c in a[1..] :: c in a; }
          ReplaceAt(a[1..], pat, rep, b); }
        [a[0]] + (a[1..] + rep + Replace(b, pat, rep));
        { assert [a[0]] + a[1..] == a; }
        a + rep + Replace(b, pat, rep);
      }
    }
  }

  // ------------------------------------------------------------- `split`

  /** The longest prefix of `s` without whitespace. */
  function Word(s: string): (w: string)
    ensures |w| <= |s| && w == s[..|w|]
    ensures forall i :: 0 <= i < |w| ==> !IsSpace(w[i])
    ensures s != [] && !IsSpace(s[0]) ==> w != []
  {
    if s == [] || IsSpace(s[0]) then "" else [s[0]] + Word(s[1..])
  }

  predicate IsWord(w: string) {
    w != [] && forall i :: 0 <= i < |w| ==> !IsSpace(w[i])
  }

  /** `str.split()` with no separator: the maximal runs of non-whitespace. */
  function Words(s: string): (ws: seq<string>)
    ensures forall k :: 0 <= k < |ws| ==> IsWord(ws[k])
    decreases |s|
  {
    if s == [] then []
    else if IsSpace(s[0]) then Words(s[1..])
    else var w := Word(s); [w] + Words(s[|w|..])
  }

  /** A word followed by whitespace (or nothing) is the first word. */
  lemma {:induction false} WordsCons(w: string, rest: string)
    requires IsWord(w) && (rest == [] || IsSpace(rest[0]))
    ensures Words(w + rest) == [w] + Words(rest)
  {
    WordPrefix(w, rest);
    assert (w + rest)[|w|..] == rest;
  }

  lemma {:induction false} WordPrefix(w: string, rest: string)
    requires (forall i :: 0 <= i < |w| ==> !IsSpace(w[i])) && (rest == [] || IsSpace(rest[0]))
    ensures Word(w + rest) == w
  {
    if w == [] {
      assert w + rest == rest;
    } else {
      assert (w + rest)[1..] == w[1..] + rest;
      WordPrefix(w[1..], rest);
      assert [w[0]] + w[1..] == w;
    }
  }

  /** The words of a string hold only characters of that string. */
  lemma {:induction false} WordsAvoid(s: string, c: char)
    requires c !in s
    ensures forall k :: 0 <= k < |Words(s)| ==> c !in Words(s)[k]
    decreases |s|
  {
    if s == [] {
    } else if IsSpace(s[0]) {
      assert forall k :: 0 <= k < |s| - 1 ==> s[1..][k] == s[1 + k];
      WordsAvoid(s[1..], c);
    } else {
      var w := Word(s);
      assert forall k :: 0 <= k < |s| - |w| ==> s[|w|..][k] == s[|w| + k];
      assert forall k :: 0 <= k < |w| ==> w[k] == s[k];
      WordsAvoid(s[|w|..], c);
    }
  }

  /** `sep.join(parts)`. */
  function Join(sep: string, parts: seq<string>): string {
    if parts == [] then ""
    else if |parts| == 1 then parts[0]
    else parts[0] + sep + Join(sep, parts[1..])
  }

  /** No whitespace at either end, no whitespace but the space character,
      and no two spaces in a row. */
  predicate SingleSpaced(s: string) {
    && (s != [] ==> !IsSpace(s[0]) && !IsSpace(s[|s| - 1]))
    && (forall i :: 0 <= i < |s| && IsSpace(s[i]) ==> s[i] == ' ')
    && (forall i :: 0 < i < |s| && s[i] == ' ' ==> s[i - 1] != ' ')
  }

  /** Words joined by single spaces are single-spaced and start with the
      first word. */
  lemma {:induction false} JoinSingleSpaced(ws: seq<string>)
    requires forall k :: 0 <= k < |ws| ==> IsWord(ws[k])
    ensures SingleSpaced(Join(" ", ws))
    ensures ws != [] ==> |Join(" ", ws)| >= |ws[0]| && Join(" ", ws)[..|ws[0]|] == ws[0]
  {
    if |ws| <= 1 {
    } else {
      var w, rest := ws[0], Join(" ", ws[1..]);
      JoinSingleSpaced(ws[1..]);
      var j := w + " " + rest;
      assert j == Join(" ", ws);
      assert rest != [] by { assert |rest| >= |ws[1]| > 0; }
      forall i | 0 <= i < |j| && IsSpace(j[i])
        ensures j[i] == ' '
      {
        if i > |w| { assert j[i] == rest[i - |w| - 1]; }
      }
      forall i | 0 < i < |j|
        ensures j[i] == ' ' ==> j[i - 1] != ' '
      {
        if i < |w| {
        } else if i == |w| {
        } else if i == |w| + 1 {
          assert j[i] == rest[0];
        } else {
          assert j[i] == rest[i - |w| - 1] && j[i - 1] == rest[i - |w| - 2];
        }
      }
      assert j[..|w|] == w;
      assert j[|j| - 1] == rest[|rest| - 1];
    }
  }

  /** Joining with " " introduces no character other than the space. */
  lemma {:induction false} JoinAvoids(ws: seq<string>, c: char)
    requires c != ' ' && forall k :: 0 <= k < |ws| ==> c !in ws[k]
    ensures c !in Join(" ", ws)
  {
    if |ws| > 1 {
      JoinAvoids(ws[1..], c);
    }
  }

  /** Title-casing changes only letters, so it keeps a string
      single-spaced and keeps out any character that is not a letter. */
  lemma TitleKeepsShape(s: string, c: char)
    requires !IsCased(c) && c !in s
    ensures c !in Title(s)
    ensures SingleSpaced(s) ==> SingleSpaced(Title(s))
  {
    var t := Title(s);
    assert forall i :: 0 <= i < |s| ==> (t[i] == ' ' <==> s[i] == ' ') && (IsSpace(t[i]) <==> IsSpace(s[i]));
  }

  /** The index of the first occurrence of `c`. */
  function IndexOf(s: string, c: char): (i: nat)
    requires c in s
    ensures i < |s| && s[i] == c && c !in s[..i]
  {
    if s[0] == c then 0 else 1 + IndexOf(s[1..], c)
  }

  /** `s.split(sep)` for a one-character separator. */
  function SplitOn(s: string, sep: char): (parts: seq<string>)
    ensures |parts| >= 1
    ensures sep !in parts[0] && (sep in s ==> |parts| >= 2)
    decreases |s|
  {
    if sep !in s then [s]
    else var i := IndexOf(s, sep); [s[..i]] + SplitOn(s[i + 1..], sep)
  }

  /** Splitting and joining back with the separator gives the string back. */
  lemma {:induction false} SplitJoin(s: string, sep: char)
    ensures Join([sep], SplitOn(s, sep)) == s
    decreases |s|
  {
    if sep in s {
      var i := IndexOf(s, sep);
      var tail := s[i + 1..];
      SplitJoin(tail, sep);
      JoinCons([sep], s[..i], SplitOn(tail, sep));
      assert s == s[..i] + [sep] + tail by {
        assert s == s[..i] + [s[i]] + s[i + 1..];
      }
    }
  }

  lemma JoinCons(sep: string, head: string, rest: seq<string>)
    requires rest != []
    ensures Join(sep, [head] + rest) == head + sep + Join(sep, rest)
  {
    assert ([head] + rest)[1..] == rest;
  }
}
