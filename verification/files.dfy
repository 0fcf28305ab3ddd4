/** The filename filters of src/cerver/files.c:331-378, which work in place on a C string, and the
    space remover they end with (src/cerver/utils/utils.c:250-259). */
module Files {
  const NUL: char := '\0'

  /** The string a buffer holds: everything before the first terminator. */
  function CString(s: seq<char>): seq<char> {
    if s == [] || s[0] == NUL then [] else [s[0]] + CString(s[1..])
  }

  /** A buffer that holds a string of length `n`. */
  ghost predicate HoldsLength(s: seq<char>, n: nat) {
    && n < |s| && s[n] == NUL
    && forall k :: 0 <= k < n ==> s[k] != NUL
  }

  lemma {:induction false} CStringIs(s: seq<char>, n: nat)
    requires HoldsLength(s, n)
    ensures CString(s) == s[..n]
    decreases n
  {
    if n == 0 {
    } else {
      CStringIs(s[1..], n - 1);
      assert s[..n] == [s[0]] + s[1..][..n - 1];
    }
  }

  lemma {:induction false} HasLength(s: seq<char>) returns (n: nat)
    requires NUL in s
    ensures HoldsLength(s, n)
  {
    if s[0] == NUL {
      n := 0;
    } else {
      n := HasLength(s[1..]);
      n := n + 1;
      forall k | 0 <= k < n
        ensures s[k] != NUL
      {
        assert k > 0 ==> s[k] == s[1..][k - 1];
      }
    }
  }

  /** The pure filter that the loops are measured against. */
  function Filter(keep: char -> bool, s: seq<char>): (r: seq<char>)
    ensures |r| <= |s|
  {
    if s == [] then []
    else
      var last := s[|s| - 1];
      Filter(keep, s[..|s| - 1]) + if keep(last) then [last] else []
  }

  lemma FilterSnoc(keep: char -> bool, s: seq<char>, c: char)
    ensures Filter(keep, s + [c]) == Filter(keep, s) + if keep(c) then [c] else []
    ensures Filter(keep, []) == []
  {
    assert (s + [c])[..|s|] == s;
  }

  /** Filtering leaves allowed characters only, and changes nothing that is all allowed. */
  lemma {:induction false} FilterKeeps(keep: char -> bool, s: seq<char>)
    ensures forall c :: c in Filter(keep, s) ==> keep(c) && c in s
    ensures (forall c :: c in s ==> keep(c)) <==> Filter(keep, s) == s
  {
    if s == [] {
    } else {
      var front, last := s[..|s| - 1], s[|s| - 1];
      FilterKeeps(keep, front);
      assert s == front + [last];
      if !keep(last) {
        assert last in s && |Filter(keep, s)| < |s|;
      } else {
        assert Filter(keep, s) == s <==> Filter(keep, front) == front;
      }
    }
  }

  /** Filtering twice is filtering once by the stricter of the two. */
  lemma {:induction false} FilterFilter(loose: char -> bool, strict: char -> bool, s: seq<char>)
    requires forall c :: strict(c) ==> loose(c)
    ensures Filter(strict, Filter(loose, s)) == Filter(strict, s)
  {
    if s == [] {
    } else {
      var front, last := s[..|s| - 1], s[|s| - 1];
      FilterFilter(loose, strict, front);
      if loose(last) {
        FilterSnoc(strict, Filter(loose, front), last);
      } else {
        assert Filter(loose, s) == Filter(loose, front);
      }
    }
  }

  /** What files_sanitize_filename () lets through. */
  const FILENAME: char -> bool := (c: char) =>
    'a' <= c <= 'z' || 'A' <= c <= 'Z' || '0' <= c <= '9' || c == '-' || c == '_' || c == '.'

  /** What files_sanitize_complete_filename () lets through. */
  const COMPLETE_FILENAME: char -> bool := (c: char) => FILENAME(c) || c == '/'

  const LOWER: seq<char> := "abcdefghijklm" + "nopqrstuvwxyz"
  const UPPER: seq<char> := "ABCDEFGHIJKLM" + "NOPQRSTUVWXYZ"
  const DIGITS: seq<char> := "0123456789"
  const MARKS: seq<char> := "-_."

  lemma LowerCase(c: char)
    ensures 'a' <= c <= 'z' <==> c in LOWER
  {
    if 'a' <= c <= 'm' {
      assert "abcdefghijklm"[c as int - 'a' as int] == c;
    } else if 'n' <= c <= 'z' {
      assert "nopqrstuvwxyz"[c as int - 'n' as int] == c;
    }
  }

  lemma UpperCase(c: char)
    ensures 'A' <= c <= 'Z' <==> c in UPPER
  {
    if 'A' <= c <= 'M' {
      assert "ABCDEFGHIJKLM"[c as int - 'A' as int] == c;
    } else if 'N' <= c <= 'Z' {
      assert "NOPQRSTUVWXYZ"[c as int - 'N' as int] == c;
    }
  }

  lemma Digit(c: char)
    ensures '0' <= c <= '9' <==> c in DIGITS
  {
    if '0' <= c <= '9' {
      assert DIGITS[c as int - '0' as int] == c;
    }
  }

  /** Which characters the two functions let through, one by one. */
  lemma LetThrough(c: char)
    ensures FILENAME(c) <==> c in LOWER + UPPER + DIGITS + MARKS
    ensures COMPLETE_FILENAME(c) <==> c in LOWER + UPPER + DIGITS + MARKS + "/"
  {
    LowerCase(c);
    UpperCase(c);
    Digit(c);
    hide LOWER, UPPER, DIGITS;
    assert c in MARKS <==> c == '-' || c == '_' || c == '.';
    assert c in "/" <==> c == '/';
  }

  /** A string made of such characters, and nothing else, is left as it is; the result has no others, so
      no separator, space or backslash. */
  lemma StrictlyFiltered(s: seq<char>)
    ensures Filter(FILENAME, s) == s <==> forall c :: c in s ==> c in LOWER + UPPER + DIGITS + MARKS
    ensures forall c :: c in Filter(FILENAME, s) ==> c in LOWER + UPPER + DIGITS + MARKS
    ensures '/' !in Filter(FILENAME, s) && ' ' !in Filter(FILENAME, s) && '\\' !in Filter(FILENAME, s)
  {
    hide Filter, LOWER, UPPER, DIGITS, MARKS;
    FilterKeeps(FILENAME, s);
    forall c ensures FILENAME(c) <==> c in LOWER + UPPER + DIGITS + MARKS {
      LetThrough(c);
    }
  }

  /** Likewise, with separators. */
  lemma CompletelyFiltered(s: seq<char>)
    ensures Filter(COMPLETE_FILENAME, s) == s <==> forall c :: c in s ==> c in LOWER + UPPER + DIGITS + MARKS + "/"
    ensures forall c :: c in Filter(COMPLETE_FILENAME, s) ==> c in LOWER + UPPER + DIGITS + MARKS + "/"
    ensures ' ' !in Filter(COMPLETE_FILENAME, s) && '\\' !in Filter(COMPLETE_FILENAME, s)
  {
    hide Filter, LOWER, UPPER, DIGITS, MARKS;
    FilterKeeps(COMPLETE_FILENAME, s);
    forall c ensures COMPLETE_FILENAME(c) <==> c in LOWER + UPPER + DIGITS + MARKS + "/" {
      LetThrough(c);
    }
  }

  /** A name with an extension, of letters, digits, '-' and '_', stays as it is, also behind a path. */
  lemma NamesSurvive(path: seq<char>, stem: seq<char>, extension: seq<char>)
    requires forall c :: c in path + stem + extension ==> c in LOWER + UPPER + DIGITS + "-_"
    ensures Filter(FILENAME, stem + "." + extension) == stem + "." + extension
    ensures Filter(COMPLETE_FILENAME, "/" + path + "/" + stem + "." + extension) == "/" + path + "/" + stem + "." + extension
  {
    hide Filter, LOWER, UPPER, DIGITS;
    var name := stem + "." + extension;
    assert forall c :: c in name ==> c in LOWER + UPPER + DIGITS + MARKS by {
      assert forall c :: c in "-_" ==> c in MARKS;
      assert forall c :: c in stem || c in extension ==> c in path + stem + extension;
      assert '.' in MARKS;
    }
    StrictlyFiltered(name);
    var full := "/" + path + "/" + stem + "." + extension;
    assert forall c :: c in full ==> c in LOWER + UPPER + DIGITS + MARKS + "/" by {
      assert forall c :: c in "-_" ==> c in MARKS;
      assert forall c :: c in stem || c in extension || c in path ==> c in path + stem + extension;
      assert '.' in MARKS;
    }
    CompletelyFiltered(full);
  }

  const NOT_SPACE: char -> bool := (c: char) => c != ' '

  ghost predicate Holds(a: array<char>, n: nat)
    reads a
  {
    n < a.Length && a[n] == NUL && forall k :: 0 <= k < n ==> a[k] != NUL
  }

  /** How far a filter got with the string `s`: its first `i` characters are done, the rest is still to
      be looked at, and the room made by dropping characters is filled with terminators. */
  ghost predicate Progress(a: array<char>, keep: char -> bool, s: seq<char>, i: nat, n: nat)
    reads a
  {
    && i <= n <= |s| < a.Length
    && Holds(a, n)
    && a[..i] == Filter(keep, s[..|s| - (n - i)])
    && a[i..n] == s[|s| - (n - i)..]
    && forall k :: n <= k <= |s| ==> a[k] == NUL
  }

  /** The innermost loop: drops the character at `i` by moving the rest of the string, terminator
      included, one to the left. */
  method DropAt(a: array<char>, i: nat, ghost n: nat)
    requires Holds(a, n) && i < n
    modifies a
    ensures forall k :: 0 <= k < i || n <= k < a.Length ==> a[k] == old(a[k])
    ensures forall k :: i <= k < n ==> a[k] == old(a[k + 1])
  {
    var j := i;
    while a[j] != NUL
      invariant i <= j <= n
      invariant forall k :: 0 <= k < i || j <= k < a.Length ==> a[k] == old(a[k])
      invariant forall k :: i <= k < j ==> a[k] == old(a[k + 1])
      decreases n - j
    {
      a[j] := a[j + 1];
      j := j + 1;
    }
    a[j] := NUL;
  }

  /** The middle loop: drops characters at `i` until an allowed one or the terminator is there. */
  method CleanAt(a: array<char>, keep: char -> bool, i: nat, ghost s: seq<char>, ghost n0: nat)
    returns (ghost n: nat)
    requires Progress(a, keep, s, i, n0) && i < n0 && !keep(NUL)
    modifies a
    ensures Progress(a, keep, s, i, n)
    ensures a[i] == NUL || keep(a[i])
    ensures a[i] == NUL ==> n < n0
    ensures a[|s| + 1..] == old(a[|s| + 1..])
  {
    hide Filter, Progress;
    n := n0;
    BoundsOf(a, keep, s, i, n);
    while !keep(a[i]) && a[i] != NUL
      invariant i <= n <= |s| < a.Length && (a[i] == NUL <==> i == n)
      invariant Progress(a, keep, s, i, n) && n <= n0
      invariant a[i] == NUL ==> n < n0
      invariant a[|s| + 1..] == old(a[|s| + 1..])
      decreases n
    {
      DropOne(a, keep, i, s, n);
      n := n - 1;
      BoundsOf(a, keep, s, i, n);
    }
  }

  /** One round of it: the character at `i` is not allowed. */
  method DropOne(a: array<char>, keep: char -> bool, i: nat, ghost s: seq<char>, ghost n: nat)
    requires Progress(a, keep, s, i, n) && i < n && !keep(a[i])
    modifies a
    ensures Progress(a, keep, s, i, n - 1)
    ensures a[|s| + 1..] == old(a[|s| + 1..])
  {
    hide Filter;
    ghost var m := |s| - (n - i);
    ghost var done, rest := a[..i], a[i..n];
    assert s[m] == rest[0] && s[..m + 1] == s[..m] + [s[m]];
    FilterSnoc(keep, s[..m], s[m]);
    DropAt(a, i, n);
    assert a[..i] == done;
    assert a[i..n - 1] == rest[1..] == s[m + 1..];
  }

  /** An allowed character is passed over. */
  lemma Advance(a: array<char>, keep: char -> bool, s: seq<char>, i: nat, n: nat)
    requires Progress(a, keep, s, i, n) && i < n && keep(a[i])
    ensures Progress(a, keep, s, i + 1, n)
  {
    hide Filter;
    var m := |s| - (n - i);
    assert s[m] == a[i..n][0] && s[..m + 1] == s[..m] + [s[m]];
    FilterSnoc(keep, s[..m], s[m]);
    assert a[..i + 1] == a[..i] + [a[i]];
    assert a[i + 1..n] == a[i..n][1..] == s[m + 1..];
  }

  /** Nothing is done yet. */
  lemma Enter(a: array<char>, keep: char -> bool, n: nat)
    requires HoldsLength(a[..], n)
    ensures Progress(a, keep, a[..n], 0, n)
    ensures CString(a[..]) == a[..n]
  {
    CStringIs(a[..], n);
    FilterSnoc(keep, [], NUL);
    assert a[..n][..0] == [];
    forall k | 0 <= k <= n
      ensures a[k] == a[..][k]
    {
    }
  }

  /** Everything is done. */
  lemma Leave(a: array<char>, keep: char -> bool, s: seq<char>, n: nat)
    requires Progress(a, keep, s, n, n)
    ensures NUL in a[..] && CString(a[..]) == Filter(keep, s)
  {
    hide Filter;
    assert s[..|s|] == s;
    assert a[..][n] == NUL;
    CStringIs(a[..], n);
    assert a[..][..n] == a[..n];
  }

  /** Both filters: two nested loops over the string, then the spaces.  The array may end right after
      the terminator, so no index goes past it; nothing behind it changes. */
  method RemoveOthers(a: array<char>, keep: char -> bool)
    requires NUL in a[..] && !keep(NUL)
    modifies a
    ensures CString(a[..]) == Filter(keep, CString(old(a[..]))) && NUL in a[..]
    ensures |CString(old(a[..]))| < a.Length
    ensures a[|CString(old(a[..]))| + 1..] == old(a[..])[|CString(old(a[..]))| + 1..]
  {
    hide Filter, CString, Progress;
    ghost var n: nat := HasLength(a[..]);
    Enter(a, keep, n);
    ghost var s := a[..n];
    BoundsOf(a, keep, s, 0, n);

    var i := 0;
    while a[i] != NUL
      invariant |s| < a.Length && i <= |s|
      invariant Progress(a, keep, s, i, n) || (Progress(a, keep, s, n, n) && i == n + 1 && a[i] == NUL)
      invariant a[|s| + 1..] == old(a[|s| + 1..])
      decreases |s| - i
    {
      BoundsOf(a, keep, s, i, n);
      n := CleanAt(a, keep, i, s, n);
      BoundsOf(a, keep, s, i, n);
      if a[i] != NUL {
        Advance(a, keep, s, i, n);
      }
      i := i + 1;
    }
    if Progress(a, keep, s, i, n) {
      BoundsOf(a, keep, s, i, n);
    }
    Leave(a, keep, s, n);
  }

  /** Where `i` and `n` can be. */
  lemma BoundsOf(a: array<char>, keep: char -> bool, s: seq<char>, i: nat, n: nat)
    requires Progress(a, keep, s, i, n)
    ensures i <= n <= |s| < a.Length
    ensures a[i] == NUL <==> i == n
    ensures n < |s| ==> a[n + 1] == NUL
  {
  }

  /** Skips spaces: the reading end of c_string_remove_spaces (). */
  method SkipSpaces(a: array<char>, d0: nat, ghost str: seq<char>) returns (d: nat)
    requires d0 <= |str| < a.Length && a[|str|] == NUL
    requires forall k :: d0 <= k < |str| ==> a[k] == str[k]
    ensures d0 <= d <= |str| && a[d] != ' '
    ensures Filter(NOT_SPACE, str[..d]) == Filter(NOT_SPACE, str[..d0])
    ensures ' ' !in str ==> d == d0
  {
    hide Filter;
    d := d0;
    while a[d] == ' '
      invariant d0 <= d <= |str|
      invariant Filter(NOT_SPACE, str[..d]) == Filter(NOT_SPACE, str[..d0])
      invariant ' ' !in str ==> d == d0
      decreases |str| - d
    {
      assert str[..d + 1] == str[..d] + [str[d]];
      FilterSnoc(NOT_SPACE, str[..d], str[d]);
      d := d + 1;
    }
  }

  /** How far c_string_remove_spaces () got: it has read `d` characters of the string and written `s`. */
  ghost predicate Squeezed(a: array<char>, start: seq<char>, str: seq<char>, s: nat, d: nat)
    reads a
  {
    && s <= d <= |str| < a.Length == |start|
    && start[..|str|] == str && start[|str|] == NUL && NUL !in str
    && (forall k :: d <= k < a.Length ==> a[k] == start[k])
    && a[..s] == Filter(NOT_SPACE, str[..d])
    && (' ' !in str ==> s == d && a[..] == start)
  }

  /** *s = *d, for a character that is not a space. */
  method CopyTo(a: array<char>, s: nat, d: nat, ghost start: seq<char>, ghost str: seq<char>) returns (copied: char)
    requires Squeezed(a, start, str, s, d) && a[d] != ' '
    modifies a
    ensures copied == start[d] == a[s]
    ensures copied != NUL ==> Squeezed(a, start, str, s + 1, d + 1)
    ensures copied == NUL ==> d == |str| && a[..s] == Filter(NOT_SPACE, str)
    ensures forall k :: d < k < a.Length ==> a[k] == start[k]
    ensures ' ' !in str ==> a[..] == start
  {
    hide Filter;
    ghost var done := a[..s];
    copied := a[d];
    a[s] := copied;
    assert a[..s] == done;
    if d < |str| {
      assert start[..|str|][d] == str[d] && str[d] in str;
      assert str[..d + 1] == str[..d] + [str[d]];
      FilterSnoc(NOT_SPACE, str[..d], str[d]);
      assert a[..s + 1] == a[..s] + [copied];
    } else {
      assert str[..d] == str;
    }
  }

  /** c_string_remove_spaces () */
  method RemoveSpaces(a: array<char>)
    requires NUL in a[..]
    modifies a
    ensures CString(a[..]) == Filter(NOT_SPACE, CString(old(a[..]))) && NUL in a[..]
    ensures |CString(old(a[..]))| < a.Length
    ensures a[|CString(old(a[..]))| + 1..] == old(a[..])[|CString(old(a[..]))| + 1..]
    ensures ' ' !in CString(old(a[..])) ==> a[..] == old(a[..])
  {
    hide Filter, CString;
    ghost var start := a[..];
    ghost var n: nat := HasLength(start);
    CStringIs(start, n);
    ghost var str := start[..n];
    FilterSnoc(NOT_SPACE, [], NUL);
    assert str[..0] == [];

    var s, d := 0, 0;
    while true
      invariant Squeezed(a, start, str, s, d)
      decreases n - d
    {
      d := SkipSpaces(a, d, str);
      var copied := CopyTo(a, s, d, start, str);
      if copied == NUL {
        break;
      }
      s, d := s + 1, d + 1;
    }
    FilterKeeps(NOT_SPACE, str);
    assert a[..][..s] == a[..s] && a[..][s] == NUL;
    forall k | 0 <= k < s ensures a[..][k] != NUL {
      assert a[..s][k] in Filter(NOT_SPACE, str);
    }
    CStringIs(a[..], s);
  }

  /** files_sanitize_filename () */
  method SanitizeFilename(filename: array<char>)
    requires NUL in filename[..]
    modifies filename
    ensures NUL in filename[..]
    ensures CString(filename[..]) == Filter(FILENAME, CString(old(filename[..])))
    ensures forall c :: c in CString(filename[..]) ==> c in LOWER + UPPER + DIGITS + MARKS
    ensures CString(filename[..]) == CString(old(filename[..])) <==>
            forall c :: c in CString(old(filename[..])) ==> c in LOWER + UPPER + DIGITS + MARKS
    ensures |CString(old(filename[..]))| < filename.Length
    ensures filename[|CString(old(filename[..]))| + 1..] == old(filename[..])[|CString(old(filename[..]))| + 1..]
  {
    hide Filter, LOWER, UPPER, DIGITS, MARKS, CString;
    StrictlyFiltered(CString(filename[..]));
    RemoveOthers(filename, FILENAME);
    FilterKeeps(FILENAME, CString(old(filename[..])));
    RemoveSpaces(filename);
    FilterKeeps(NOT_SPACE, Filter(FILENAME, CString(old(filename[..]))));
  }

  /** files_sanitize_complete_filename () */
  method SanitizeCompleteFilename(filename: array<char>)
    requires NUL in filename[..]
    modifies filename
    ensures NUL in filename[..]
    ensures CString(filename[..]) == Filter(COMPLETE_FILENAME, CString(old(filename[..])))
    ensures forall c :: c in CString(filename[..]) ==> c in LOWER + UPPER + DIGITS + MARKS + "/"
    ensures CString(filename[..]) == CString(old(filename[..])) <==>
            forall c :: c in CString(old(filename[..])) ==> c in LOWER + UPPER + DIGITS + MARKS + "/"
    ensures |CString(old(filename[..]))| < filename.Length
    ensures filename[|CString(old(filename[..]))| + 1..] == old(filename[..])[|CString(old(filename[..]))| + 1..]
  {
    hide Filter, LOWER, UPPER, DIGITS, MARKS, CString;
    CompletelyFiltered(CString(filename[..]));
    RemoveOthers(filename, COMPLETE_FILENAME);
    FilterKeeps(COMPLETE_FILENAME, CString(old(filename[..])));
    RemoveSpaces(filename);
    FilterKeeps(NOT_SPACE, Filter(COMPLETE_FILENAME, CString(old(filename[..]))));
  }

  /** Sanitizing is idempotent, and sanitizing a completely sanitized name is sanitizing it. */
  lemma SanitizingComposes(s: seq<char>)
    ensures Filter(FILENAME, Filter(FILENAME, s)) == Filter(FILENAME, s)
    ensures Filter(COMPLETE_FILENAME, Filter(COMPLETE_FILENAME, s)) == Filter(COMPLETE_FILENAME, s)
    ensures Filter(FILENAME, Filter(COMPLETE_FILENAME, s)) == Filter(FILENAME, s)
  {
    FilterFilter(FILENAME, FILENAME, s);
    FilterFilter(COMPLETE_FILENAME, COMPLETE_FILENAME, s);
    FilterFilter(COMPLETE_FILENAME, FILENAME, s);
  }
}
