/** File-name helpers of hutool's FileUtil as the upload code uses them:
    getName (the last path segment), mainName (that segment without its
    extension) and getSuffix (the text after the last dot). */
module FileNames {

  predicate IsSeparator(c: char) {
    c == '/' || c == '\\'
  }

  predicate NoSeparator(s: string) {
    forall i :: 0 <= i < |s| ==> !IsSeparator(s[i])
  }

  predicate NoDot(s: string) {
    forall i :: 0 <= i < |s| ==> s[i] != '.'
  }

  /** Index of the last separator in s, or -1. */
  function LastSeparator(s: string): (r: int)
    ensures -1 <= r < |s|
    ensures r >= 0 ==> IsSeparator(s[r])
    ensures forall i :: r < i < |s| ==> !IsSeparator(s[i])
  {
    if s == [] then -1
    else if IsSeparator(s[|s| - 1]) then |s| - 1
    else LastSeparator(s[..|s| - 1])
  }

  /** Index of the last dot in s, or -1 (String.lastIndexOf('.')). */
  function LastDot(s: string): (r: int)
    ensures -1 <= r < |s|
    ensures r >= 0 ==> s[r] == '.'
    ensures forall i :: r < i < |s| ==> s[i] != '.'
  {
    if s == [] then -1
    else if s[|s| - 1] == '.' then |s| - 1
    else LastDot(s[..|s| - 1])
  }

  /** The path without one trailing separator. */
  function DropTrailingSeparator(s: string): string {
    if |s| > 0 && IsSeparator(s[|s| - 1]) then s[..|s| - 1] else s
  }

  /** FileUtil.getName: the last segment of a path. */
  function GetName(path: string): (r: string)
    ensures NoSeparator(r)
  {
    var p := DropTrailingSeparator(path);
    p[LastSeparator(p) + 1..]
  }

  /** FileUtil.mainName: the last segment of a path, cut at its last dot. */
  function MainName(path: string): (r: string)
    ensures NoSeparator(r)
  {
    var name := GetName(path);
    var dot := LastDot(name);
    if dot < 0 then name else name[..dot]
  }

  /** FileUtil.getSuffix: the text after the last dot of the whole string,
      empty when there is no dot or when that text holds a separator. */
  function Suffix(path: string): (r: string)
    ensures NoDot(r) && NoSeparator(r)
  {
    var dot := LastDot(path);
    if dot < 0 then ""
    else
      var ext := path[dot + 1..];
      if NoSeparator(ext) then ext else ""
  }

  lemma NoSeparatorConcat(a: string, b: string)
    requires NoSeparator(a) && NoSeparator(b)
    ensures NoSeparator(a + b)
  {
    forall i | 0 <= i < |a + b| ensures !IsSeparator((a + b)[i]) {
      if i >= |a| { assert (a + b)[i] == b[i - |a|]; }
    }
  }

  lemma LastSeparatorNone(s: string)
    requires NoSeparator(s)
    ensures LastSeparator(s) == -1
  {
    if s != [] {
      LastSeparatorNone(s[..|s| - 1]);
    }
  }

  lemma LastDotNone(s: string)
    requires NoDot(s)
    ensures LastDot(s) == -1
  {
    if s != [] {
      LastDotNone(s[..|s| - 1]);
    }
  }

  /** The last dot of a.b, for a b without a dot, is the one just before b. */
  lemma {:induction false} LastDotOfJoin(a: string, b: string)
    requires NoDot(b)
    ensures LastDot(a + "." + b) == |a|
    decreases |b|
  {
    var s := a + "." + b;
    if b == [] {
      assert s[|s| - 1] == '.';
    } else {
      assert s[..|s| - 1] == a + "." + b[..|b| - 1];
      LastDotOfJoin(a, b[..|b| - 1]);
    }
  }

  /** A file name without separators is its main name, a dot and its suffix. */
  lemma NameSplitsAtLastDot(main: string, ext: string)
    requires NoSeparator(main) && NoSeparator(ext) && NoDot(ext)
    ensures MainName(main + "." + ext) == main
    ensures Suffix(main + "." + ext) == ext
  {
    var s := main + "." + ext;
    assert NoSeparator(s) by {
      forall i | 0 <= i < |s| ensures !IsSeparator(s[i]) {
        if i < |main| { assert s[i] == main[i]; }
        else if i > |main| { assert s[i] == ext[i - |main| - 1]; }
      }
    }
    LastSeparatorNone(s);
    LastDotOfJoin(main, ext);
    assert s[|main| + 1..] == ext;
    assert s[..|main|] == main;
  }

  /** The last separator of dir/name, for a name without one, is the one
      before the name. */
  lemma {:induction false} LastSeparatorOfJoin(dir: string, name: string)
    requires NoSeparator(name)
    ensures LastSeparator(dir + "/" + name) == |dir|
    decreases |name|
  {
    var s := dir + "/" + name;
    if name == [] {
      assert s[|s| - 1] == '/';
    } else {
      assert s[..|s| - 1] == dir + "/" + name[..|name| - 1];
      LastSeparatorOfJoin(dir, name[..|name| - 1]);
    }
  }

  lemma GetNameOfJoin(dir: string, name: string)
    requires NoSeparator(name) && name != []
    ensures GetName(dir + "/" + name) == name
  {
    var s := dir + "/" + name;
    assert DropTrailingSeparator(s) == s;
    LastSeparatorOfJoin(dir, name);
    assert s[|dir| + 1..] == name;
  }
}
