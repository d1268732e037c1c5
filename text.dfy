/**
  String helpers with Python's meaning: `in` on strings, `startswith`/`endswith`,
  ASCII `lower`/`upper`, `split()` and `split(sep)`, `pathlib` stems, `os.path.splitext`,
  `os.path.join`, and the collapsing of repeated '/' that the operating system applies
  when it resolves a path.
*/
module Text {
  import opened Wrappers

  // ---------------------------------------------------------------- substrings

  predicate OccursAt(s: string, sub: string, i: int) {
    0 <= i && i + |sub| <= |s| && s[i..i + |sub|] == sub
  }

  /** Python's `sub in s`. */
  predicate Contains(s: string, sub: string) {
    exists i | 0 <= i <= |s| - |sub| :: OccursAt(s, sub, i)
  }

  predicate StartsWith(s: string, prefix: string) {
    |prefix| <= |s| && s[..|prefix|] == prefix
  }

  predicate EndsWith(s: string, suffix: string) {
    |suffix| <= |s| && s[|s| - |suffix|..] == suffix
  }

  /** A string occurs in any string that extends it on either side. */
  lemma ContainsInContext(pre: string, sub: string, post: string)
    ensures Contains(pre + sub + post, sub)
  {
    var s := pre + sub + post;
    assert s[|pre|..|pre| + |sub|] == sub;
    assert OccursAt(s, sub, |pre|);
  }

  /** A prefix is in particular a substring. */
  lemma StartsWithContains(s: string, prefix: string)
    requires StartsWith(s, prefix)
    ensures Contains(s, prefix)
  {
    assert OccursAt(s, prefix, 0);
  }

  // ---------------------------------------------------------------- case mapping

  function LowerChar(c: char): char {
    if 'A' <= c <= 'Z' then (c as int + 32) as char else c
  }

  function UpperChar(c: char): char {
    if 'a' <= c <= 'z' then (c as int - 32) as char else c
  }

  /** `s.lower()`, on ASCII letters only. */
  function Lower(s: string): (r: string)
    ensures |r| == |s|
    ensures forall i :: 0 <= i < |s| ==> r[i] == LowerChar(s[i])
  {
    seq(|s|, i requires 0 <= i < |s| => LowerChar(s[i]))
  }

  /** `s.upper()`, on ASCII letters only. */
  function Upper(s: string): (r: string)
    ensures |r| == |s|
    ensures forall i :: 0 <= i < |s| ==> r[i] == UpperChar(s[i])
  {
    seq(|s|, i requires 0 <= i < |s| => UpperChar(s[i]))
  }

  // ---------------------------------------------------------------- whitespace tokens

  /**
    The characters `str.split()` separates on, those for which `str.isspace()` holds:
    the ASCII controls '\t' to '\r', the separators U+001C to U+001F, the space, U+0085,
    the no-break space U+00A0 and the Unicode spaces and line and paragraph separators.
  */
  predicate IsSpace(c: char) {
    || '\t' <= c <= '\r'
    || '\U{1C}' <= c <= ' '
    || c == '\U{85}' || c == '\U{A0}' || c == '\U{1680}'
    || '\U{2000}' <= c <= '\U{200A}'
    || c == '\U{2028}' || c == '\U{2029}' || c == '\U{202F}' || c == '\U{205F}' || c == '\U{3000}'
  }

  /** Index of the first non-whitespace character at or after `i`, or `|s|`. */
  function SkipSpaces(s: string, i: nat): (r: nat)
    requires i <= |s|
    decreases |s| - i
    ensures i <= r <= |s|
    ensures forall k :: i <= k < r ==> IsSpace(s[k])
    ensures r < |s| ==> !IsSpace(s[r])
  {
    if i == |s| || !IsSpace(s[i]) then i else SkipSpaces(s, i + 1)
  }

  /** Index of the first whitespace character at or after `i`, or `|s|`. */
  function SkipWord(s: string, i: nat): (r: nat)
    requires i <= |s|
    decreases |s| - i
    ensures i <= r <= |s|
    ensures forall k :: i <= k < r ==> !IsSpace(s[k])
    ensures r < |s| ==> IsSpace(s[r])
  {
    if i == |s| || IsSpace(s[i]) then i else SkipWord(s, i + 1)
  }

  /**
    `s.split()[0]`: the first maximal run of non-whitespace characters; `None` stands for
    the `IndexError` raised when `s` is blank.
  */
  function FirstToken(s: string): (r: Option<string>)
    ensures r.None? <==> forall k :: 0 <= k < |s| ==> IsSpace(s[k])
    ensures r.Some? ==>
      var i := SkipSpaces(s, 0);
      && r.value == s[i..SkipWord(s, i)]
      && r.value != []
      && (forall k :: 0 <= k < i ==> IsSpace(s[k]))
      && (forall k :: 0 <= k < |r.value| ==> !IsSpace(r.value[k]))
      && (i + |r.value| == |s| || IsSpace(s[i + |r.value|]))
  {
    var i := SkipSpaces(s, 0);
    if i == |s| then None else Some(s[i..SkipWord(s, i)])
  }

  /** A token of a string without `c` has no `c` either. */
  lemma FirstTokenAvoids(s: string, c: char)
    requires c !in s
    requires FirstToken(s).Some?
    ensures c !in FirstToken(s).value
  {
  }

  // ---------------------------------------------------------------- split on a separator

  /** Index of the first `sep` at or after `i`, or `|s|`. */
  function FindChar(s: string, sep: char, i: nat): (r: nat)
    requires i <= |s|
    decreases |s| - i
    ensures i <= r <= |s|
    ensures forall k :: i <= k < r ==> s[k] != sep
    ensures r < |s| ==> s[r] == sep
  {
    if i == |s| || s[i] == sep then i else FindChar(s, sep, i + 1)
  }

  /** `s.split(sep)` for a one-character separator: never empty, fields hold no `sep`. */
  function Split(s: string, sep: char): (r: seq<string>)
    decreases |s|
    ensures |r| >= 1
    ensures forall f :: f in r ==> sep !in f
  {
    var j := FindChar(s, sep, 0);
    if j == |s| then [s] else [s[..j]] + Split(s[j + 1..], sep)
  }

  /** `sep.join(fields)`. */
  function JoinWith(fields: seq<string>, sep: char): string
    requires |fields| >= 1
  {
    if |fields| == 1 then fields[0] else fields[0] + [sep] + JoinWith(fields[1..], sep)
  }

  /** Splitting loses nothing: joining the fields back with the separator gives `s`. */
  lemma {:induction false} SplitJoin(s: string, sep: char)
    decreases |s|
    ensures JoinWith(Split(s, sep), sep) == s
  {
    var j := FindChar(s, sep, 0);
    if j < |s| {
      SplitJoin(s[j + 1..], sep);
      assert s == s[..j] + [sep] + s[j + 1..];
    }
  }

  /** The number of fields is one more than the number of separators. */
  function CountChar(s: string, c: char): nat {
    if s == [] then 0 else (if s[0] == c then 1 else 0) + CountChar(s[1..], c)
  }

  lemma {:induction false} CountCharAppend(a: string, b: string, c: char)
    ensures CountChar(a + b, c) == CountChar(a, c) + CountChar(b, c)
  {
    if a != [] {
      assert (a + b)[1..] == a[1..] + b;
      CountCharAppend(a[1..], b, c);
    } else {
      assert a + b == b;
    }
  }

  lemma {:induction false} SplitCount(s: string, sep: char)
    decreases |s|
    ensures |Split(s, sep)| == CountChar(s, sep) + 1
  {
    var j := FindChar(s, sep, 0);
    if j == |s| {
      NoCharCount(s, sep);
    } else {
      SplitCount(s[j + 1..], sep);
      assert s == s[..j] + ([sep] + s[j + 1..]);
      CountCharAppend(s[..j], [sep] + s[j + 1..], sep);
      CountCharAppend([sep], s[j + 1..], sep);
      NoCharCount(s[..j], sep);
    }
  }

  lemma {:induction false} NoCharCount(s: string, c: char)
    requires forall k :: 0 <= k < |s| ==> s[k] != c
    ensures CountChar(s, c) == 0
  {
    if s != [] { NoCharCount(s[1..], c); }
  }

  /** A string that occurs in a suffix occurs in the whole. */
  lemma ContainsSuffix(s: string, i: nat, f: string)
    requires i <= |s| && Contains(s[i..], f)
    ensures Contains(s, f)
  {
    var k :| 0 <= k <= |s[i..]| - |f| && OccursAt(s[i..], f, k);
    assert s[i + k..i + k + |f|] == s[i..][k..k + |f|];
    assert OccursAt(s, f, i + k);
  }

  /** Every field `split(sep)` returns occurs in the string. */
  lemma {:induction false} SplitFieldsContained(s: string, sep: char)
    ensures forall f :: f in Split(s, sep) ==> Contains(s, f)
    decreases |s|
  {
    var j := FindChar(s, sep, 0);
    if j == |s| {
      assert OccursAt(s, s, 0);
    } else {
      SplitFieldsContained(s[j + 1..], sep);
      assert OccursAt(s, s[..j], 0);
      forall f | f in Split(s[j + 1..], sep)
        ensures Contains(s, f)
      {
        ContainsSuffix(s, j + 1, f);
      }
    }
  }

  // ---------------------------------------------------------------- file names and paths

  /** The index of the last `c` in `s`, or -1 (Python's `rfind`). */
  function RFind(s: string, c: char): (r: int)
    ensures -1 <= r < |s|
    ensures r >= 0 ==> s[r] == c
    ensures forall k :: r < k < |s| ==> s[k] != c
  {
    if s == [] then -1
    else if s[|s| - 1] == c then |s| - 1
    else RFind(s[..|s| - 1], c)
  }

  /** `os.path.basename`: the part after the last '/'. */
  function Basename(path: string): (r: string)
    ensures '/' !in r
    ensures EndsWith(path, r)
    ensures |r| == |path| || path[|path| - |r| - 1] == '/'
  {
    var i := RFind(path, '/');
    assert path[|path| - |path[i + 1..]|..] == path[i + 1..];
    path[i + 1..]
  }

  /**
    `pathlib.PurePath(name).stem` for a bare file name: everything before the last '.',
    provided that dot is neither the first nor the last character.
  */
  function Stem(name: string): (r: string)
    ensures StartsWith(name, r)
    ensures |r| < |name| <==> 0 < RFind(name, '.') < |name| - 1
  {
    var i := RFind(name, '.');
    if 0 < i < |name| - 1 then name[..i] else name
  }

  /** True when `path[from..to]` consists of dots only. */
  predicate AllDots(path: string, from: int, to: int)
    requires 0 <= from <= to <= |path|
  {
    forall k :: from <= k < to ==> path[k] == '.'
  }

  /**
    `os.path.splitext(path)`: the extension starts at the last '.' of the last path
    component, unless everything before that dot in the component is dots.
  */
  function SplitExt(path: string): (r: (string, string))
    ensures r.0 + r.1 == path
    ensures r.1 != [] ==> r.1[0] == '.' && '/' !in r.1
    ensures r.1 != [] ==> '.' !in r.1[1..]
    ensures r.1 != [] ==> exists k :: RFind(path, '/') < k < |r.0| && path[k] != '.'
    ensures r.1 == [] ==> forall k :: RFind(path, '/') < k < |path| && path[k] == '.' ==> AllDots(path, RFind(path, '/') + 1, k)
  {
    var sep := RFind(path, '/');
    var dot := RFind(path, '.');
    if dot > sep && !AllDots(path, sep + 1, dot) then
      assert path[..dot] + path[dot..] == path;
      assert forall k :: 0 <= k < |path| - dot ==> path[dot..][k] == path[dot + k];
      (path[..dot], path[dot..])
    else
      (path, "")
  }

  /** `os.path.join(a, b)` for two components. */
  function Join(a: string, b: string): string {
    if StartsWith(b, "/") then b
    else if a == [] || EndsWith(a, "/") then a + b
    else a + "/" + b
  }

  /** A relative second part is appended: the join starts with the first and ends with the second. */
  lemma JoinRelative(a: string, b: string)
    requires b != [] && b[0] != '/'
    ensures StartsWith(Join(a, b), a) && EndsWith(Join(a, b), b)
  {
    assert !StartsWith(b, "/");
    if !(a == [] || EndsWith(a, "/")) {
      assert (a + "/" + b)[..|a|] == a;
      assert (a + "/" + b)[|a| + 1..] == b;
    } else {
      assert (a + b)[..|a|] == a;
      assert (a + b)[|a|..] == b;
    }
  }

  /** The path with every run of '/' replaced by a single '/': what the system resolves. */
  function Collapse(s: string): string
    decreases |s|
  {
    if |s| < 2 then s
    else if s[0] == '/' && s[1] == '/' then Collapse(s[1..])
    else [s[0]] + Collapse(s[1..])
  }

  /** Collapsing distributes over a concatenation that does not join two slashes. */
  lemma {:induction false} CollapseAppend(x: string, y: string)
    requires !(EndsWith(x, "/") && StartsWith(y, "/"))
    ensures Collapse(x + y) == Collapse(x) + Collapse(y)
    decreases |x|
  {
    if |x| == 0 {
      assert x + y == y;
    } else if |x| == 1 {
      if |y| > 0 {
        assert (x + y)[1..] == y;
        assert !(x[0] == '/' && y[0] == '/');
      } else {
        assert x + y == x;
      }
    } else {
      assert (x + y)[1..] == x[1..] + y;
      assert EndsWith(x[1..], "/") <==> EndsWith(x, "/");
      CollapseAppend(x[1..], y);
    }
  }

  /** A string with no '/' is left alone. */
  lemma {:induction false} CollapseNoSlash(s: string)
    requires '/' !in s
    ensures Collapse(s) == s
    decreases |s|
  {
    if |s| >= 2 {
      CollapseNoSlash(s[1..]);
    }
  }

  /** Doubling a trailing slash changes nothing once collapsed. */
  lemma {:induction false} CollapseDoubleSlash(x: string)
    requires EndsWith(x, "/")
    ensures Collapse(x + "/") == Collapse(x)
    decreases |x|
  {
    if |x| == 1 {
      assert x + "/" == "//";
      assert Collapse("//") == Collapse("/");
    } else {
      assert (x + "/")[1..] == x[1..] + "/";
      CollapseDoubleSlash(x[1..]);
    }
  }

  /**
    For a non-empty directory and a relative name, `os.path.join(dir, name)` and the
    f-string `f"{dir}/{name}"` resolve to the same file.
  */
  lemma JoinResolvesLikeSlash(dir: string, name: string)
    requires dir != []
    requires !StartsWith(name, "/")
    ensures Collapse(Join(dir, name)) == Collapse(dir + "/" + name)
  {
    if EndsWith(dir, "/") {
      assert dir + "/" + name == (dir + "/") + name;
      assert EndsWith(dir + "/", "/");
      CollapseAppend(dir + "/", name);
      CollapseAppend(dir, name);
      CollapseDoubleSlash(dir);
    }
  }

  /** The collapsed form of `dir + "/" + name` for a name without '/'. */
  lemma CollapseFileUnder(dir: string, name: string)
    requires '/' !in name
    ensures Collapse(dir + "/" + name) == Collapse(dir + "/") + name
  {
    if |name| > 0 {
      assert !StartsWith(name, "/") by { assert name[0] != '/'; }
    }
    assert EndsWith(dir + "/", "/");
    CollapseAppend(dir + "/", name);
    CollapseNoSlash(name);
  }

  // ---------------------------------------------------------------- first match in a list

  /** `next((x for x in candidates if x in s), None)`. */
  function FirstContained(candidates: seq<string>, s: string): (r: Option<string>)
    ensures r.Some? ==> r.value in candidates && Contains(s, r.value)
    ensures r.Some? ==> exists i :: 0 <= i < |candidates| && candidates[i] == r.value &&
                          forall j :: 0 <= j < i ==> !Contains(s, candidates[j])
    ensures r.None? <==> forall x :: x in candidates ==> !Contains(s, x)
  {
    if candidates == [] then None
    else if Contains(s, candidates[0]) then Some(candidates[0])
    else
      var r := FirstContained(candidates[1..], s);
      assert forall x :: x in candidates ==> x == candidates[0] || x in candidates[1..];
      if r.Some? then
        var i :| 0 <= i < |candidates[1..]| && candidates[1..][i] == r.value &&
                 forall j :: 0 <= j < i ==> !Contains(s, candidates[1..][j]);
        assert candidates[i + 1] == r.value;
        r
      else r
  }
}
