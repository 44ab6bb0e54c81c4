/** The path routines of path.rs on byte buffers.  A C string is a NUL-free sequence; a buffer holds
    one when the sequence and a terminating NUL are its first bytes. */
module Paths {
  import opened PathModel

  ghost predicate Holds(out: array<char>, s: string)
    reads out
  {
    |s| < out.Length && out[..|s|] == s && out[|s|] == '\0'
  }

  /** Copies src to dst from offset on; the rest of dst stays. */
  method Copy(dst: array<char>, offset: nat, src: string)
    requires offset + |src| <= dst.Length
    modifies dst
    ensures dst[..] == old(dst[..offset]) + src + old(dst[offset + |src|..])
  {
    for i := 0 to |src|
      invariant dst[..offset] == old(dst[..offset])
      invariant dst[offset..offset + i] == src[..i]
      invariant dst[offset + |src|..] == old(dst[offset + |src|..])
    {
      dst[offset + i] := src[i];
      assert dst[offset..offset + i + 1] == dst[offset..offset + i] + [src[i]];
    }
    assert dst[..] == dst[..offset] + dst[offset..offset + |src|] + dst[offset + |src|..];
  }

  /** buf_append: the new offset, or -1 when src and a NUL do not fit. */
  method BufAppend(dst: array<char>, offset: nat, src: string) returns (end: int)
    requires offset <= dst.Length
    modifies dst
    ensures end == -1 <==> offset + |src| >= dst.Length
    ensures end == -1 ==> dst[..] == old(dst[..])
    ensures end != -1 ==> end == offset + |src| && dst[..end] == old(dst[..offset]) + src && dst[end] == '\0'
  {
    end := offset + |src|;
    if end >= dst.Length { return -1; }
    Copy(dst, offset, src);
    assert dst[..end] == old(dst[..offset]) + src;
    dst[end] := '\0';
  }

  // ------------------------------------------------------------------ normalising

  /** The stack after the first i bytes, and the components still to come. */
  ghost predicate Progress(input: string, i: nat, done: seq<string>) {
    i <= |input| && Comps(input) == done + Comps(input[i..]) && forall k :: 0 <= k < |done| ==> Plain(done[k])
  }

  method SkipSlashes(input: string, i: nat, ghost done: seq<string>) returns (j: nat)
    requires Progress(input, i, done)
    ensures i <= j && Progress(input, j, done) && (j == |input| || input[j] != '/')
  {
    j := i;
    while j < |input| && input[j] == '/'
      invariant i <= j && Progress(input, j, done)
    {
      assert input[j..][1..] == input[j + 1..];
      j := j + 1;
    }
  }

  method TakeComponent(input: string, i: nat, ghost done: seq<string>) returns (j: nat)
    requires Progress(input, i, done) && i < |input| && input[i] != '/'
    ensures i < j <= |input| && Progress(input, j, done + [input[i..j]]) && Plain(input[i..j])
  {
    j := i;
    while j < |input| && input[j] != '/'
      invariant i <= j <= |input| && forall k :: i <= k < j ==> input[k] != '/'
    {
      j := j + 1;
    }
    ComponentTaken(input, i, j, done);
  }

  /** The component from i to j is the first of what is left. */
  lemma FirstComponent(s: string, n: nat)
    requires 0 < n <= |s| && (forall k :: 0 <= k < n ==> s[k] != '/') && (n == |s| || s[n] == '/')
    ensures Comps(s) == [s[..n]] + Comps(s[n..])
  {
    hide RunLength;
    RunIs(s, n);
  }

  lemma ComponentTaken(input: string, i: nat, j: nat, done: seq<string>)
    requires Progress(input, i, done) && i < j <= |input|
    requires (forall k :: i <= k < j ==> input[k] != '/') && (j == |input| || input[j] == '/')
    ensures Progress(input, j, done + [input[i..j]]) && Plain(input[i..j])
  {
    hide Comps;
    var s := input[i..];
    FirstComponent(s, j - i);
    assert s[..j - i] == input[i..j] && s[j - i..] == input[j..];
    assert done + ([input[i..j]] + Comps(input[j..])) == done + [input[i..j]] + Comps(input[j..]);
  }

  lemma RunIs(s: string, n: nat)
    requires n <= |s| && (forall k :: 0 <= k < n ==> s[k] != '/') && (n == |s| || s[n] == '/')
    ensures RunLength(s) == n
  {
    assert RunLength(s) <= n;
    assert n <= RunLength(s);
  }

  /** ".." strips the last component from the rendering in out[..len]. */
  method StripLast(out: array<char>, len: nat, ghost stack: seq<string>) returns (n: nat)
    requires out.Length == 512 && Names(stack) && Holds(out, Render(stack)) && len == |Render(stack)|
    modifies out
    ensures Holds(out, Render(Apply(stack, ".."))) && n == |Render(Apply(stack, ".."))|
    ensures Holds(out, DirOf(Render(stack)))
  {
    hide DirOf, Render, Cat, Names;
    ApplyResolves(stack, "..");
    RootOrNot(stack);
    n := len;
    if n > 1 {
      ghost var head, last := Cat(stack[..|stack| - 1]), stack[|stack| - 1];
      ghost var text := Render(stack);
      StripParts(stack, head, last);
      while n > 1 && out[n - 1] != '/'
        invariant |head| + 1 <= n <= len
        invariant out[..len] == text
      {
        assert out[..len][n - 1] == text[n - 1];
        n := n - 1;
      }
      assert n == |head| + 1 by { assert out[..len][n - 1] == text[n - 1]; StopsAtSlash(text, head, last, n); }
      if n > 1 { n := n - 1; }
      assert out[..n] == out[..len][..n] == text[..n];
      out[n] := '\0';
      assert out[..n] == text[..n];
    }
  }

  /** The rendering ends in a slash and the last component; what is before the slash, or the slash alone
      at the root, is the rendering without it. */
  lemma StripParts(stack: seq<string>, head: string, last: string)
    requires Names(stack) && stack != [] && last == stack[|stack| - 1] && head == Cat(stack[..|stack| - 1])
    ensures Render(stack) == head + "/" + last && Name(last)
    ensures var n := if head == "" then 1 else |head|; Render(stack)[..n] == Render(Apply(stack, ".."))
  {
    var m := |stack| - 1;
    if m > 0 { CatAbsolute(stack[..m]); }
    assert Render(stack)[..|head|] == head;
    if m == 0 { assert Render(stack)[..1] == "/"; }
  }

  lemma StopsAtSlash(text: string, head: string, last: string, n: nat)
    requires text == head + "/" + last && |head| + 1 <= n <= |text| && Name(last)
    requires n == 1 || text[n - 1] == '/'
    ensures n == |head| + 1
  {
    assert forall k :: |head| < k < |text| ==> text[k] == last[k - |head| - 1];
  }

  lemma LongRender(stack: seq<string>)
    requires Names(stack) && stack != []
    ensures |Render(stack)| > 1
  {
    assert |stack[|stack| - 1]| > 0;
  }

  lemma RootOrNot(stack: seq<string>)
    requires Names(stack)
    ensures |Render(stack)| > 1 <==> stack != []
  {
    if stack != [] { LongRender(stack); }
  }

  /** Appends a slash (unless at the root) and comp; fails when the result would reach 512 bytes. */
  method PushComponent(out: array<char>, len: nat, comp: string, ghost stack: seq<string>) returns (ok: bool, n: nat)
    requires out.Length == 512 && Names(stack) && Holds(out, Render(stack)) && len == |Render(stack)| && Name(comp)
    modifies out
    ensures ok <==> |Render(stack + [comp])| < 512
    ensures ok ==> Holds(out, Render(stack + [comp])) && n == |Render(stack + [comp])|
  {
    n := len;
    ghost var text := Render(stack);
    ghost var target := Render(stack + [comp]);
    assert (stack + [comp])[..|stack|] == stack;
    assert target == Cat(stack) + "/" + comp;
    RootOrNot(stack);
    if n > 1 {
      if n + 1 >= 512 { return false, n; }
      out[n] := '/';
      n := n + 1;
      assert out[..n] == text + "/";
    } else {
      assert text == "/" && out[..n] == text;
    }
    assert target == out[..n] + comp;
    if n + |comp| >= 512 { return false, n; }
    Copy(out, n, comp);
    assert out[..n + |comp|] == target;
    n := n + |comp|;
    out[n] := '\0';
    ok := true;
  }

  /** path_normalize: succeeds exactly on the paths that normalise, with the rendering of the stack. */
  method Normalize(input: string, out: array<char>) returns (ok: bool)
    requires out.Length == 512
    modifies out
    ensures ok <==> Normalizes(input)
    ensures ok ==> Holds(out, Normal(input)) && Holds(out, Walked(input))
  {
    NormalIsWalked(input);
    if input == "" || input[0] != '/' { return false; }
    out[0] := '/';
    out[1] := '\0';
    var len := 1;
    ghost var done: seq<string> := [];
    var i := 0;
    assert input[0..] == input;
    while i < |input|
      invariant Progress(input, i, done)
      invariant Fine(done)
      invariant Holds(out, Render(Fold([], done))) && len == |Render(Fold([], done))|
    {
      i := SkipSlashes(input, i, done);
      if i >= |input| { break; }
      var j := TakeComponent(input, i, done);
      var comp := input[i..j];
      ghost var stack := Fold([], done);
      NamesOf(done);
      Extend(done, comp, Comps(input[j..]));
      i := j;
      if |comp| > 255 { return false; }
      done := done + [comp];
      if comp == "." { continue; }
      if comp == ".." {
        len := StripLast(out, len, stack);
        continue;
      }
      var fits;
      fits, len := PushComponent(out, len, comp, stack);
      if !fits { return false; }
    }
    assert input[|input|..] == "";
    assert done + [] == done;
    ok := true;
  }

  lemma NamesOf(done: seq<string>)
    requires forall k :: 0 <= k < |done| ==> Plain(done[k])
    ensures Names(Fold([], done))
  {
    FoldNames([], done);
  }

  /** Whether the components so far and one more are fine depends only on that one. */
  lemma Extend(done: seq<string>, comp: string, rest: seq<string>)
    requires Fine(done)
    ensures Fold([], done + [comp]) == Apply(Fold([], done), comp)
    ensures Fine(done + [comp]) <==> |comp| <= 255 && |Render(Apply(Fold([], done), comp))| < 512
    ensures Fine(done + [comp] + rest) ==> Fine(done + [comp])
    ensures comp == "." || comp == ".." ==> |Render(Apply(Fold([], done), comp))| < 512
  {
    FoldConcat([], done, [comp]);
    assert [comp][..0] == [];
    OneMore(Fold([], done), comp);
    FineConcat(done, [comp]);
    FineConcat(done + [comp], rest);
    assert Fits([], done, |done|) && done[..|done|] == done;
    var stack := Fold([], done);
    if comp == ".." && stack != [] { RenderPrefix(stack, |stack| - 1); }
  }

  // ---------------------------------------------------------------------- joining

  /** cstr_to_bytes: the bytes before the first NUL. */
  method CString(buf: array<char>) returns (s: string)
    requires '\0' in buf[..]
    ensures |s| < buf.Length && buf[..|s|] == s && buf[|s|] == '\0' && '\0' !in s
  {
    var n := 0;
    while buf[n] != '\0'
      invariant n < buf.Length && '\0' !in buf[..n] && '\0' in buf[n..]
      decreases buf.Length - n
    {
      assert buf[n..] == [buf[n]] + buf[n + 1..];
      n := n + 1;
      assert '\0' in buf[n..];
    }
    s := buf[..n];
  }

  /** path_join */
  method Join(base: string, rel: string, out: array<char>) returns (ok: bool)
    requires out.Length == 512 && '\0' !in base && '\0' !in rel
    modifies out
    ensures ok <==> Joins(base, rel)
    ensures ok ==> Holds(out, Joined(base, rel))
  {
    hide Normalizes, Normal;
    if rel != "" && rel[0] == '/' {
      ok := Normalize(rel, out);
      return;
    }
    var tmp := new char[1024](_ => '\0');
    var pos := BufAppend(tmp, 0, base);
    if pos == -1 { return false; }
    pos := BufAppend(tmp, pos, "/");
    if pos == -1 { return false; }
    pos := BufAppend(tmp, pos, rel);
    if pos == -1 { return false; }
    ghost var whole := base + "/" + rel;
    assert tmp[..pos] == whole;
    assert '\0' !in whole;
    assert tmp[..][pos] == '\0';
    var s := CString(tmp);
    assert s == whole by { SameString(tmp[..], s, whole); }
    ok := Normalize(s, out);
  }

  /** Two NUL-free prefixes that end at a NUL are equal. */
  lemma SameString(buf: string, s: string, t: string)
    requires |s| < |buf| && buf[..|s|] == s && buf[|s|] == '\0' && '\0' !in s
    requires |t| < |buf| && buf[..|t|] == t && buf[|t|] == '\0' && '\0' !in t
    ensures s == t
  {
    assert forall i :: 0 <= i < |s| ==> buf[i] == s[i];
    assert forall i :: 0 <= i < |t| ==> buf[i] == t[i];
  }

  // ---------------------------------------------------------- directory and base name

  /** out holds as much of s as fits, NUL-terminated. */
  ghost predicate HoldsCut(out: array<char>, s: string)
    reads out
  {
    var n := if |s| < out.Length then |s| else out.Length - 1;
    out.Length > 0 && out[..n] == s[..n] && out[n] == '\0'
  }

  method FindBase(path: string) returns (len: nat, last: nat)
    ensures len == TrimEnd(path, |path|) && last == AfterSlash(path, len) && last <= len <= |path|
  {
    len := |path|;
    while len > 1 && path[len - 1] == '/'
      invariant len <= |path| && TrimEnd(path, len) == TrimEnd(path, |path|)
    {
      len := len - 1;
    }
    last := len;
    while last > 0 && path[last - 1] != '/'
      invariant last <= len && AfterSlash(path, last) == AfterSlash(path, len)
    {
      last := last - 1;
    }
  }

  method PutRoot(out: array<char>)
    requires out.Length > 0
    modifies out
    ensures out[0] == '/' && (out.Length > 1 ==> HoldsCut(out, "/"))
  {
    out[0] := '/';
    if 1 < out.Length { out[1] := '\0'; }
  }

  /** path_dirname; a one-byte buffer gets an unterminated "/" for the root. */
  method Dirname(path: string, out: array<char>)
    modifies out
    ensures out.Length > 1 ==> HoldsCut(out, DirOf(path))
    ensures out.Length == 1 ==> out[0] == if AfterSlash(path, TrimEnd(path, |path|)) <= 1 then '/' else '\0'
  {
    hide TrimEnd, AfterSlash;
    if out.Length == 0 { return; }
    var len, last := FindBase(path);
    if last == 0 || last == 1 {
      PutRoot(out);
      return;
    }
    var copy := if last - 1 < out.Length - 1 then last - 1 else out.Length - 1;
    Copy(out, 0, path[..copy]);
    assert out[..copy] == path[..copy];
    out[copy] := '\0';
    assert path[..last - 1][..copy] == path[..copy];
  }

  /** path_basename */
  method Basename(path: string, out: array<char>)
    modifies out
    ensures out.Length > 1 ==> HoldsCut(out, BaseOf(path))
    ensures out.Length == 1 ==> out[0] == if AfterSlash(path, TrimEnd(path, |path|)) == TrimEnd(path, |path|) then '/' else '\0'
  {
    hide TrimEnd, AfterSlash;
    if out.Length == 0 { return; }
    var len, last := FindBase(path);
    var blen := len - last;
    if blen == 0 {
      PutRoot(out);
      return;
    }
    var copy := if blen < out.Length - 1 then blen else out.Length - 1;
    Copy(out, 0, path[last..last + copy]);
    assert out[..copy] == path[last..last + copy];
    out[copy] := '\0';
    assert path[last..len][..copy] == path[last..last + copy];
  }
}
