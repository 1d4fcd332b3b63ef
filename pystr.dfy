/** The pieces of Python's string and `pathlib` semantics that the request
    handlers rely on: `str.strip`, `str.lower`, `str.join`, `str.rfind`,
    `PurePosixPath.name` and `PurePosixPath.suffix`. */
module PyStr {

  /** `c.isspace()` for one character: the characters Python strips by default. */
  predicate IsSpace(c: char)
  {
    || c == ' '
    || '\t' <= c <= '\r'                 // \t \n \v \f \r
    || '\U{1C}' <= c <= '\U{1F}'         // file, group, record and unit separators
    || c == '\U{85}' || c == '\U{A0}' || c == '\U{1680}'
    || '\U{2000}' <= c <= '\U{200A}'
    || c == '\U{2028}' || c == '\U{2029}' || c == '\U{202F}' || c == '\U{205F}' || c == '\U{3000}'
  }

  /** The 29 code points CPython's `str.isspace` accepts, listed one by one. */
  const PythonWhitespace: set<char> := {
    '\t', '\n', '\U{0B}', '\U{0C}', '\r',
    '\U{1C}', '\U{1D}', '\U{1E}', '\U{1F}', ' ',
    '\U{85}', '\U{A0}', '\U{1680}',
    '\U{2000}', '\U{2001}', '\U{2002}', '\U{2003}', '\U{2004}', '\U{2005}',
    '\U{2006}', '\U{2007}', '\U{2008}', '\U{2009}', '\U{200A}',
    '\U{2028}', '\U{2029}', '\U{202F}', '\U{205F}', '\U{3000}'
  }

  /** `IsSpace` accepts exactly the listed code points; in particular the
      zero-width space and the byte-order mark are not whitespace. */
  lemma IsSpaceSet(c: char)
    ensures IsSpace(c) <==> c in PythonWhitespace
    ensures !IsSpace('\U{200B}') && !IsSpace('\U{FEFF}')
  {
  }

  /** `s.lstrip()`: drops the leading whitespace and nothing else. */
  function TrimStart(s: string): (r: string)
    ensures |r| <= |s| && r == s[|s| - |r|..]
    ensures forall i :: 0 <= i < |s| - |r| ==> IsSpace(s[i])
    ensures r == [] || !IsSpace(r[0])
  {
    if |s| > 0 && IsSpace(s[0]) then TrimStart(s[1..]) else s
  }

  /** `s.rstrip()`: drops the trailing whitespace and nothing else. */
  function TrimEnd(s: string): (r: string)
    ensures |r| <= |s| && r == s[..|r|]
    ensures forall i :: |r| <= i < |s| ==> IsSpace(s[i])
    ensures r == [] || !IsSpace(r[|r| - 1])
  {
    if |s| > 0 && IsSpace(s[|s| - 1]) then TrimEnd(s[..|s| - 1]) else s
  }

  /** `s.strip()`. */
  function Strip(s: string): string
  {
    TrimEnd(TrimStart(s))
  }

  /** `not s.strip()`: the string is empty or made of whitespace only, decided
      one character at a time (Blank and `Strip(s) == []` agree, see BlankIff). */
  predicate Blank(s: string)
  {
    s == [] || (IsSpace(s[0]) && Blank(s[1..]))
  }

  /** Blank holds exactly when every character is whitespace. */
  lemma {:induction false} BlankAll(s: string)
    ensures Blank(s) <==> forall i :: 0 <= i < |s| ==> IsSpace(s[i])
  {
    if s != [] {
      BlankAll(s[1..]);
      assert forall i :: 1 <= i < |s| ==> s[i] == s[1..][i - 1];
    }
  }

  /** A string strips to nothing exactly when it is Blank, that is, when every
      character is whitespace. */
  lemma BlankIff(s: string)
    ensures Blank(s) <==> Strip(s) == []
    ensures Blank(s) <==> forall i :: 0 <= i < |s| ==> IsSpace(s[i])
  {
    BlankAll(s);
    var t := TrimStart(s);
    if Strip(s) == [] {
      assert t == [];
    } else {
      var r := Strip(s);
      assert r[0] == t[0] == s[|s| - |t|];
    }
  }

  /** `c.lower()` on ASCII letters; every other character is its own lower case here. */
  function LowerChar(c: char): (r: char)
    ensures 'A' <= c <= 'Z' ==> 'a' <= r <= 'z' && r as int == c as int + 32
    ensures !('A' <= c <= 'Z') ==> r == c
  {
    if 'A' <= c <= 'Z' then (c as int + 32) as char else c
  }

  /** `s.lower()`, character by character. */
  function Lower(s: string): (r: string)
    ensures |r| == |s|
    ensures forall i :: 0 <= i < |s| ==> r[i] == LowerChar(s[i])
  {
    if s == [] then [] else [LowerChar(s[0])] + Lower(s[1..])
  }

  /** `s.rfind(c)`: the index of the last occurrence of `c`, or -1. */
  function LastIndex(s: string, c: char): (i: int)
    ensures -1 <= i < |s|
    ensures 0 <= i ==> s[i] == c
    ensures forall j :: i < j < |s| ==> s[j] != c
  {
    if |s| == 0 then -1
    else if s[|s| - 1] == c then |s| - 1
    else LastIndex(s[..|s| - 1], c)
  }

  /** `PurePosixPath(p).name`: the last component, ignoring empty and `.`
      components (so trailing slashes and `/.` do not count); `""` when there is none. */
  function Name(p: string): (r: string)
    ensures '/' !in r && r != "."
    ensures '/' !in p && p != "." ==> r == p
    decreases |p|
  {
    var i := LastIndex(p, '/');
    var tail := p[i + 1..];
    if tail != "" && tail != "." then tail
    else if i < 0 then ""
    else Name(p[..i])
  }

  /** The name of a path with a directory part is its last component. */
  lemma NameOfDir(d: string, f: string)
    requires f != "" && f != "." && '/' !in f
    ensures Name(d + "/" + f) == f
  {
    var p := d + "/" + f;
    assert p[|d|] == '/';
    assert forall j :: |d| < j < |p| ==> p[j] == f[j - |d| - 1];
    assert LastIndex(p, '/') == |d|;
    assert p[|d| + 1..] == f;
  }

  /** A trailing slash does not change the name: `Path("a/b.pdf/").name` is `b.pdf`. */
  lemma NameTrailingSlash(p: string)
    ensures Name(p + "/") == Name(p)
  {
    var q := p + "/";
    assert q[..|p|] == p;
  }

  /** `PurePosixPath(name).suffix` for a final component `name`: from the last
      dot on, provided that dot is neither the first nor the last character. */
  function Suffix(name: string): (r: string)
    ensures r == "" || (2 <= |r| < |name| && r == name[|name| - |r|..] && r[0] == '.' && '.' !in r[1..])
  {
    var i := LastIndex(name, '.');
    if 0 < i < |name| - 1 then name[i..] else ""
  }

  /** `sep.join(parts)`. */
  function Join(sep: string, parts: seq<string>): (r: string)
    ensures parts == [] ==> r == ""
    ensures |parts| == 1 ==> r == parts[0]
  {
    if |parts| == 0 then ""
    else if |parts| == 1 then parts[0]
    else parts[0] + sep + Join(sep, parts[1..])
  }

  /** Where the `i`-th part starts in `Join(sep, parts)`: the lengths of the
      earlier parts plus one separator after each of them. */
  function Offset(sep: string, parts: seq<string>, i: nat): nat
    requires i <= |parts|
  {
    if i == 0 then 0 else Offset(sep, parts, i - 1) + |parts[i - 1]| + |sep|
  }

  lemma {:induction false} OffsetTail(sep: string, parts: seq<string>, i: nat)
    requires 0 < i <= |parts|
    ensures Offset(sep, parts, i) == |parts[0]| + |sep| + Offset(sep, parts[1..], i - 1)
  {
    if i > 1 {
      OffsetTail(sep, parts, i - 1);
    }
  }

  /** The first part, and the separator after it, open a join of two or more parts. */
  lemma JoinHead(sep: string, parts: seq<string>)
    requires |parts| >= 2
    ensures Join(sep, parts) == parts[0] + sep + Join(sep, parts[1..])
    ensures Join(sep, parts)[..|parts[0]|] == parts[0]
    ensures Join(sep, parts)[|parts[0]|..|parts[0]| + |sep|] == sep
  {
  }

  /** The layout of a joined string: every part sits at its offset, a separator
      follows each part but the last, and nothing comes after the last part. */
  ghost predicate LaidOut(sep: string, parts: seq<string>, i: nat)
    requires i < |parts|
  {
    var j, o := Join(sep, parts), Offset(sep, parts, i);
    && o + |parts[i]| <= |j|
    && j[o..o + |parts[i]|] == parts[i]
    && (i + 1 < |parts| ==> o + |parts[i]| + |sep| <= |j| && j[o + |parts[i]|..o + |parts[i]| + |sep|] == sep)
    && (i + 1 == |parts| ==> |j| == o + |parts[i]|)
  }

  lemma {:induction false} JoinLayout(sep: string, parts: seq<string>, i: nat)
    requires i < |parts|
    ensures LaidOut(sep, parts, i)
  {
    if |parts| == 1 {
    } else if i == 0 {
      JoinHead(sep, parts);
    } else {
      JoinLayout(sep, parts[1..], i - 1);
      JoinLayoutShift(sep, parts, i);
    }
  }

  /** The layout of the tail of the parts carries over to the whole, shifted
      by the first part and one separator. */
  lemma JoinLayoutShift(sep: string, parts: seq<string>, i: nat)
    requires 0 < i < |parts|
    requires LaidOut(sep, parts[1..], i - 1)
    ensures LaidOut(sep, parts, i)
  {
    var head, rest := parts[0] + sep, Join(sep, parts[1..]);
    var o := Offset(sep, parts[1..], i - 1);
    var p := parts[i];
    var j := Join(sep, parts);
    JoinHead(sep, parts);
    OffsetTail(sep, parts, i);
    assert j == head + rest && Offset(sep, parts, i) == |head| + o;
    assert parts[1..][i - 1] == p;
    ShiftSlice(head, rest, o, |p|);
    assert j[|head| + o..|head| + o + |p|] == p;
    if i + 1 < |parts| {
      ShiftSlice(head, rest, o + |p|, |sep|);
      assert j[|head| + o + |p|..|head| + o + |p| + |sep|] == sep;
    }
  }

  /** A slice of the second half of a concatenation is a slice of that half. */
  lemma ShiftSlice(a: string, b: string, lo: nat, len: nat)
    requires lo + len <= |b|
    ensures (a + b)[|a| + lo..|a| + lo + len] == b[lo..lo + len]
  {
  }
}
