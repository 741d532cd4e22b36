/** The string operations a classification applies to a path: `Path.name`,
    `Path.suffix` and ASCII case mapping. */
module Text {
  import opened Wrappers

  /** `c` with an ASCII capital letter mapped to its small letter. */
  function LowerChar(c: char): char
  {
    if 'A' <= c <= 'Z' then (c as int + 32) as char else c
  }

  /** `c` with an ASCII small letter mapped to its capital letter. */
  function UpperChar(c: char): char
  {
    if 'a' <= c <= 'z' then (c as int - 32) as char else c
  }

  /** `str.lower` on ASCII text: every character mapped on its own. */
  function Lower(s: string): string
  {
    seq(|s|, i requires 0 <= i < |s| => LowerChar(s[i]))
  }

  /** `str.upper` on ASCII text: every character mapped on its own. */
  function Upper(s: string): string
  {
    seq(|s|, i requires 0 <= i < |s| => UpperChar(s[i]))
  }

  /** The index of the last `c` among the first `n` characters of `s`, or -1
      when there is none. */
  function LastIndexBefore(s: string, c: char, n: nat): (i: int)
    requires n <= |s|
    ensures -1 <= i < n
    ensures i >= 0 ==> s[i] == c
  {
    if n == 0 then -1
    else if s[n - 1] == c then n - 1
    else LastIndexBefore(s, c, n - 1)
  }

  /** `s.rfind(c)`: the index of the last `c` in `s`, or -1 when there is none. */
  function LastIndexOf(s: string, c: char): (i: int)
    ensures -1 <= i < |s|
    ensures i >= 0 ==> s[i] == c
  {
    LastIndexBefore(s, c, |s|)
  }

  /** The backward scan stops at the last occurrence: no `c` stands between
      the index it returns and `n`, and it returns -1 exactly when none of the
      first `n` characters is `c`. */
  lemma {:induction false} LastIndexBeforeIsLast(s: string, c: char, n: nat)
    requires n <= |s|
    ensures var i := LastIndexBefore(s, c, n);
      && (i == -1 <==> forall k :: 0 <= k < n ==> s[k] != c)
      && (forall k :: i < k < n ==> s[k] != c)
  {
    if n > 0 && s[n - 1] != c {
      LastIndexBeforeIsLast(s, c, n - 1);
    }
  }

  /** `rfind` finds the last occurrence: no `c` stands after the index it
      returns, and it returns -1 exactly when `c` does not occur at all. */
  lemma LastIndexOfIsLast(s: string, c: char)
    ensures var i := LastIndexOf(s, c);
      && (i == -1 <==> c !in s)
      && (forall k :: i < k < |s| ==> s[k] != c)
  {
    LastIndexBeforeIsLast(s, c, |s|);
  }

  /** `s[start:]`: the characters of `s` from index `start` on, each at its
      offset from `start`. */
  function From(s: string, start: nat): string
    requires start <= |s|
  {
    seq(|s| - start, k requires 0 <= k < |s| - start => s[start + k])
  }

  /** `Path(path).name`: the final component, the text after the last '/'. */
  function BaseName(path: string): string
  {
    From(path, LastIndexOf(path, '/') + 1)
  }

  /** The name is the tail of the path that holds no '/': it is preceded by a
      '/' unless it is the whole path. */
  lemma BaseNameIsLastComponent(path: string)
    ensures var name := BaseName(path);
      && '/' !in name
      && |name| <= |path|
      && (|name| < |path| ==> path[|path| - |name| - 1] == '/')
      && forall k :: 0 <= k < |name| ==> name[k] == path[|path| - |name| + k]
  {
    var i := LastIndexOf(path, '/');
    LastIndexOfIsLast(path, '/');
    var name := BaseName(path);
    forall k | 0 <= k < |name| ensures name[k] != '/' {
      assert name[k] == path[i + 1 + k];
    }
  }

  /** Whether `Path(path).suffix` is non-empty: the last dot of the path lies
      inside the final component (which starts one past the last '/'), is not
      that component's first character (a dot-file such as `.bashrc`) and is
      not the path's last character. */
  predicate HasSuffix(path: string)
  {
    LastIndexOf(path, '/') + 1 < LastIndexOf(path, '.') < |path| - 1
  }

  /** `Path(path).suffix[1:].lower()`: the text after the last dot, in lower
      case, when the path has a suffix; otherwise empty. */
  function Extension(path: string): string
  {
    if HasSuffix(path) then Lower(From(path, LastIndexOf(path, '.') + 1)) else ""
  }

  /** The extension is empty exactly when the path has no suffix, and it
      holds no dot, no '/' and no capital letter. */
  lemma ExtensionCharacters(path: string)
    ensures var ext := Extension(path);
      && (ext == "" <==> !HasSuffix(path))
      && '.' !in ext
      && '/' !in ext
      && (forall k :: 0 <= k < |ext| ==> !('A' <= ext[k] <= 'Z'))
  {
    var dot := LastIndexOf(path, '.');
    var ext := Extension(path);
    LastIndexOfIsLast(path, '.');
    LastIndexOfIsLast(path, '/');
    if HasSuffix(path) {
      assert |ext| == |path| - dot - 1;
      forall k | 0 <= k < |ext| ensures ext[k] != '.' && ext[k] != '/' {
        assert ext[k] == LowerChar(path[dot + 1 + k]);
      }
    }
  }

  /** Upper-casing after lower-casing gives the same as upper-casing. */
  lemma UpperOfLowerChar(c: char)
    ensures UpperChar(LowerChar(c)) == UpperChar(c)
  {
  }

  /** Upper-casing a lower-cased text gives the same as upper-casing the text:
      the reported extension does not depend on how the name was written. */
  lemma UpperOfLower(s: string)
    ensures Upper(Lower(s)) == Upper(s)
  {
    forall i | 0 <= i < |s| ensures Upper(Lower(s))[i] == Upper(s)[i] {
      UpperOfLowerChar(s[i]);
    }
  }

  /** The upper-cased extension, as reported: the upper case of the text after
      the path's last dot, or empty when the path has no suffix. */
  lemma UpperExtension(path: string)
    ensures var reported := Upper(Extension(path));
      if HasSuffix(path) then reported != "" && reported == Upper(From(path, LastIndexOf(path, '.') + 1))
      else reported == ""
  {
    if HasSuffix(path) {
      var tail := From(path, LastIndexOf(path, '.') + 1);
      UpperOfLower(tail);
      assert |Upper(tail)| == |tail|;
    }
  }

  /** Python's `x or default` for a text that may be missing: the text when
      it is present and non-empty (an empty text is false), else `default`. */
  function OrDefault(x: Option<string>, default: string): string
  {
    if x.Some? && x.value != "" then x.value else default
  }
}
