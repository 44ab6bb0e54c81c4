/** What the path routines of path.rs mean: a path is a list of components, and normalising folds the
    components into a stack and renders the stack. */
module PathModel {
  /** Length of the leading run without a slash. */
  function RunLength(s: string): (n: nat)
    ensures n <= |s|
    ensures forall i :: 0 <= i < n ==> s[i] != '/'
    ensures n < |s| ==> s[n] == '/'
  {
    if s == [] || s[0] == '/' then 0 else 1 + RunLength(s[1..])
  }

  function Comps(s: string): seq<string>
    decreases |s|
  {
    if s == [] then []
    else if s[0] == '/' then Comps(s[1..])
    else var n := RunLength(s); [s[..n]] + Comps(s[n..])
  }

  /** One component applied to the stack: "." stays, ".." goes up, a name goes down. */
  function Apply(stack: seq<string>, comp: string): seq<string> {
    if comp == "." then stack
    else if comp == ".." then (if stack == [] then [] else stack[..|stack| - 1])
    else stack + [comp]
  }

  function Fold(stack: seq<string>, comps: seq<string>): seq<string>
    decreases |comps|
  {
    if comps == [] then stack else Apply(Fold(stack, comps[..|comps| - 1]), comps[|comps| - 1])
  }

  function Cat(stack: seq<string>): string
    decreases |stack|
  {
    if stack == [] then "" else Cat(stack[..|stack| - 1]) + "/" + stack[|stack| - 1]
  }

  function Render(stack: seq<string>): string {
    if stack == [] then "/" else Cat(stack)
  }

  predicate Absolute(s: string) { s != [] && s[0] == '/' }

  predicate Plain(c: string) {
    c != [] && forall i :: 0 <= i < |c| ==> c[i] != '/'
  }

  /** A name that is kept: not empty, no slash, neither "." nor "..". */
  predicate Name(c: string) {
    Plain(c) && c != "." && c != ".."
  }

  predicate Names(stack: seq<string>) {
    forall i :: 0 <= i < |stack| ==> Name(stack[i])
  }

  predicate Fits(stack: seq<string>, comps: seq<string>, k: nat)
    requires k <= |comps|
  {
    |Render(Fold(stack, comps[..k]))| < 512
  }

  /** From stack on, no component over 255 bytes, and no rendering on the way reaches 512 bytes. */
  predicate FineFrom(stack: seq<string>, comps: seq<string>) {
    && (forall i :: 0 <= i < |comps| ==> |comps[i]| <= 255)
    && (forall k {:trigger Fits(stack, comps, k)} :: 0 <= k <= |comps| ==> Fits(stack, comps, k))
  }

  predicate Fine(comps: seq<string>) {
    FineFrom([], comps)
  }

  predicate Normalizes(s: string) {
    Absolute(s) && Fine(Comps(s))
  }

  function Normal(s: string): string {
    Render(Fold([], Comps(s)))
  }

  // --------------------------------------------------------------- components

  lemma {:induction false} CompsPlain(s: string, i: nat)
    requires i < |Comps(s)|
    ensures Plain(Comps(s)[i])
    decreases |s|
  {
    if s != [] && s[0] == '/' { CompsPlain(s[1..], i); }
    else if s != [] && i > 0 { CompsPlain(s[RunLength(s)..], i - 1); }
  }

  /** A slash between two paths joins their components. */
  lemma {:induction false} CompsConcat(a: string, b: string)
    ensures Comps(a + "/" + b) == Comps(a) + Comps(b)
    decreases |a|
  {
    var s := a + "/" + b;
    if a == [] {
      assert s[1..] == b;
    } else if a[0] == '/' {
      CompsConcat(a[1..], b);
      assert s[1..] == a[1..] + "/" + b;
    } else {
      var n := RunLength(a);
      RunConcat(a, b);
      CompsConcat(a[n..], b);
      assert s[n..] == a[n..] + "/" + b;
      assert s[..n] == a[..n];
    }
  }

  lemma {:induction false} RunConcat(a: string, b: string)
    ensures RunLength(a + "/" + b) == RunLength(a)
    decreases |a|
  {
    var s := a + "/" + b;
    if a != [] && a[0] != '/' {
      RunConcat(a[1..], b);
      assert s[1..] == a[1..] + "/" + b;
    }
  }

  lemma CompsOfPlain(c: string)
    requires Plain(c)
    ensures Comps(c) == [c]
  {
    assert RunLength(c) == |c|;
    assert c[..|c|] == c;
  }

  /** The components of a rendering are the stack. */
  lemma {:induction false} CompsOfCat(stack: seq<string>)
    requires Names(stack)
    ensures Comps(Cat(stack)) == stack
    decreases |stack|
  {
    if stack != [] {
      var n := |stack| - 1;
      CompsOfCat(stack[..n]);
      CompsConcat(Cat(stack[..n]), stack[n]);
      CompsOfPlain(stack[n]);
      assert stack == stack[..n] + [stack[n]];
    }
  }

  lemma CompsOfRender(stack: seq<string>)
    requires Names(stack)
    ensures Comps(Render(stack)) == stack
  {
    CompsOfCat(stack);
    if stack == [] { assert "/"[1..] == ""; }
  }

  // ---------------------------------------------------------------------- folding

  lemma {:induction false} FoldConcat(stack: seq<string>, a: seq<string>, b: seq<string>)
    ensures Fold(stack, a + b) == Fold(Fold(stack, a), b)
    decreases |b|
  {
    if b == [] {
      assert a + b == a;
    } else {
      var n := |b| - 1;
      FoldConcat(stack, a, b[..n]);
      assert (a + b)[..|a + b| - 1] == a + b[..n];
    }
  }

  lemma {:induction false} FoldNames(stack: seq<string>, comps: seq<string>)
    requires Names(stack) && forall i :: 0 <= i < |comps| ==> Plain(comps[i])
    ensures Names(Fold(stack, comps))
    decreases |comps|
  {
    if comps != [] { FoldNames(stack, comps[..|comps| - 1]); }
  }

  /** Folding names only stacks them. */
  lemma {:induction false} FoldStacks(stack: seq<string>, names: seq<string>)
    requires Names(names)
    ensures Fold(stack, names) == stack + names
    decreases |names|
  {
    if names != [] {
      var n := |names| - 1;
      FoldStacks(stack, names[..n]);
      assert names == names[..n] + [names[n]];
    }
  }

  lemma NormalStack(s: string)
    ensures Names(Fold([], Comps(s)))
  {
    forall i | 0 <= i < |Comps(s)| ensures Plain(Comps(s)[i]) { CompsPlain(s, i); }
    FoldNames([], Comps(s));
  }

  // -------------------------------------------------------------------- lengths

  lemma {:induction false} CatConcat(a: seq<string>, b: seq<string>)
    ensures Cat(a + b) == Cat(a) + Cat(b)
    decreases |b|
  {
    if b == [] {
      assert a + b == a;
    } else {
      var n := |b| - 1;
      CatConcat(a, b[..n]);
      CatStep(a, b[..n], b[n]);
      assert b == b[..n] + [b[n]];
    }
  }

  lemma CatLast(s: seq<string>, c: string)
    ensures Cat(s + [c]) == Cat(s) + "/" + c
  {
    assert (s + [c])[..|s|] == s;
  }

  lemma CatStep(a: seq<string>, b: seq<string>, c: string)
    requires Cat(a + b) == Cat(a) + Cat(b)
    ensures Cat(a + (b + [c])) == Cat(a) + Cat(b + [c])
  {
    hide Cat;
    CatLast(a + b, c);
    CatLast(b, c);
    assert a + (b + [c]) == (a + b) + [c];
  }

  lemma {:induction false} FoldNoLonger(stack: seq<string>, comps: seq<string>)
    ensures |Cat(Fold(stack, comps))| <= |Cat(stack)| + |Cat(comps)|
    decreases |comps|
  {
    if comps != [] {
      var n := |comps| - 1;
      FoldNoLonger(stack, comps[..n]);
      var f := Fold(stack, comps[..n]);
      if f != [] { assert |Cat(f[..|f| - 1])| <= |Cat(f)|; }
      assert (f + [comps[n]])[..|f|] == f;
    }
  }

  lemma {:induction false} CompsNoLonger(s: string)
    ensures |Cat(Comps(s))| <= |s| + (if s == [] || s[0] == '/' then 0 else 1)
    decreases |s|
  {
    if s != [] && s[0] == '/' {
      CompsNoLonger(s[1..]);
    } else if s != [] {
      var n := RunLength(s);
      CompsNoLonger(s[n..]);
      CatConcat([s[..n]], Comps(s[n..]));
      assert |Cat([s[..n]])| == n + 1 by { CatOne(s[..n]); }
    }
  }

  lemma CatOne(c: string)
    ensures Cat([c]) == "/" + c
  {
    assert [c][..0] == [];
  }

  /** Normalising an absolute path never makes it longer. */
  lemma NormalNoLonger(s: string)
    requires Absolute(s)
    ensures |Normal(s)| <= |s|
  {
    FoldNoLonger([], Comps(s));
    CompsNoLonger(s);
  }

  // -------------------------------------------------------------------- main laws

  lemma RenderPrefix(stack: seq<string>, k: nat)
    requires k <= |stack|
    ensures |Render(stack[..k])| <= |Render(stack)| || stack == []
  {
    CatConcat(stack[..k], stack[k..]);
    assert stack[..k] + stack[k..] == stack;
    if stack != [] { assert |Cat(stack)| >= 1; }
  }

  /** A name list whose rendering fits is fine as it stands. */
  lemma NamesFine(names: seq<string>)
    requires Names(names) && |Render(names)| < 512 && forall i :: 0 <= i < |names| ==> |names[i]| <= 255
    ensures Fine(names)
  {
    forall k | 0 <= k <= |names| ensures Fits([], names, k) {
      FoldStacks([], names[..k]);
      assert [] + names[..k] == names[..k];
      RenderPrefix(names, k);
    }
  }

  lemma {:induction false} FoldShort(stack: seq<string>, comps: seq<string>)
    requires forall i :: 0 <= i < |stack| ==> |stack[i]| <= 255
    requires forall i :: 0 <= i < |comps| ==> |comps[i]| <= 255
    ensures forall i :: 0 <= i < |Fold(stack, comps)| ==> |Fold(stack, comps)[i]| <= 255
    decreases |comps|
  {
    if comps != [] { FoldShort(stack, comps[..|comps| - 1]); }
  }

  lemma RenderAbsolute(stack: seq<string>)
    ensures Absolute(Render(stack))
  {
    if stack != [] { CatAbsolute(stack); }
  }

  lemma {:induction false} CatAbsolute(stack: seq<string>)
    requires stack != []
    ensures Absolute(Cat(stack))
    decreases |stack|
  {
    var n := |stack| - 1;
    if n > 0 { CatAbsolute(stack[..n]); } else { assert stack[..0] == []; }
  }

  /** Normalising is idempotent: the output normalises, to itself. */
  lemma NormalizeIdempotent(s: string)
    requires Normalizes(s)
    ensures Normalizes(Normal(s)) && Normal(Normal(s)) == Normal(s)
  {
    var stack := Fold([], Comps(s));
    NormalStack(s);
    CompsOfRender(stack);
    FoldStacks([], stack);
    assert [] + stack == stack;
    FoldShort([], Comps(s));
    assert Fits([], Comps(s), |Comps(s)|);
    assert Comps(s)[..|Comps(s)|] == Comps(s);
    NamesFine(stack);
    RenderAbsolute(stack);
  }

  /** path_join: whether it succeeds, and its result. */
  predicate Joins(base: string, rel: string) {
    if Absolute(rel) then Normalizes(rel)
    else |base| + 1 + |rel| < 1024 && Normalizes(base + "/" + rel)
  }

  function Joined(base: string, rel: string): string {
    if Absolute(rel) then Normal(rel) else Normal(base + "/" + rel)
  }

  lemma FitsLater(a: seq<string>, b: seq<string>, k: nat)
    requires k <= |b|
    ensures Fits([], a + b, |a| + k) <==> Fits(Fold([], a), b, k)
  {
    assert (a + b)[..|a| + k] == a + b[..k];
    FoldConcat([], a, b[..k]);
  }

  lemma FitsEarlier(a: seq<string>, b: seq<string>, k: nat)
    requires k <= |a|
    ensures Fits([], a + b, k) <==> Fits([], a, k)
  {
    assert (a + b)[..k] == a[..k];
  }

  /** Fine for a prefix and from its stack on is fine for the whole. */
  lemma FineConcat(a: seq<string>, b: seq<string>)
    ensures Fine(a + b) <==> Fine(a) && FineFrom(Fold([], a), b)
  {
    hide Fits;
    var c := a + b;
    if Fine(c) {
      forall i | 0 <= i < |a| ensures |a[i]| <= 255 { assert c[i] == a[i]; }
      forall i | 0 <= i < |b| ensures |b[i]| <= 255 { assert c[|a| + i] == b[i]; }
      forall k | 0 <= k <= |a| ensures Fits([], a, k) { FitsEarlier(a, b, k); }
      forall k | 0 <= k <= |b| ensures Fits(Fold([], a), b, k) { FitsLater(a, b, k); assert Fits([], c, |a| + k); }
    }
    if Fine(a) && FineFrom(Fold([], a), b) {
      forall k | 0 <= k <= |c| ensures Fits([], c, k) {
        if k > |a| { FitsLater(a, b, k - |a|); assert Fits(Fold([], a), b, k - |a|); } else { FitsEarlier(a, b, k); }
      }
    }
  }

  lemma OneMore(stack: seq<string>, comp: string)
    ensures FineFrom(stack, [comp]) <==> |comp| <= 255 && |Render(stack)| < 512 && |Render(Apply(stack, comp))| < 512
  {
    assert [comp][..0] == [] && [comp][..1] == [comp];
    assert Fits(stack, [comp], 0) <==> |Render(stack)| < 512;
    assert Fits(stack, [comp], 1) <==> |Render(Apply(stack, comp))| < 512;
  }

  /** Joining onto a normalised base gives what joining onto the raw base gives, and succeeds exactly
      when the raw join does, but for the raw base's extra length. */
  lemma JoinNormalBase(base: string, rel: string)
    requires Normalizes(base)
    ensures Joined(Normal(base), rel) == Joined(base, rel)
    ensures Joins(base, rel) <==> Joins(Normal(base), rel) && (Absolute(rel) || |base| + 1 + |rel| < 1024)
  {
    if !Absolute(rel) {
      var nb := Normal(base);
      var stack := Fold([], Comps(base));
      NormalStack(base);
      NormalizeIdempotent(base);
      CompsOfRender(stack);
      CompsConcat(base, rel);
      CompsConcat(nb, rel);
      FoldConcat([], Comps(base), Comps(rel));
      FoldConcat([], stack, Comps(rel));
      FoldStacks([], stack);
      assert [] + stack == stack;
      FineConcat(Comps(base), Comps(rel));
      FineConcat(stack, Comps(rel));
      NormalNoLonger(base);
      RenderAbsolute(stack);
    }
  }

  // --------------------------------------------------------- directory and base name

  /** Length without trailing slashes, keeping at least one character. */
  function TrimEnd(s: string, len: nat): (n: nat)
    requires len <= |s|
    ensures n <= len && (n <= 1 || s[n - 1] != '/') && (len > 0 ==> n > 0)
    ensures forall i :: n <= i < len ==> s[i] == '/'
  {
    if len > 1 && s[len - 1] == '/' then TrimEnd(s, len - 1) else len
  }

  /** Place after the last slash before len, 0 if there is none. */
  function AfterSlash(s: string, len: nat): (n: nat)
    requires len <= |s|
    ensures n <= len && (n == 0 || s[n - 1] == '/')
    ensures forall i :: n <= i < len ==> s[i] != '/'
  {
    if len > 0 && s[len - 1] != '/' then AfterSlash(s, len - 1) else len
  }

  function DirOf(s: string): string {
    var last := AfterSlash(s, TrimEnd(s, |s|));
    if last <= 1 then "/" else s[..last - 1]
  }

  function BaseOf(s: string): string {
    var len := TrimEnd(s, |s|);
    var last := AfterSlash(s, len);
    if last == len then "/" else s[last..len]
  }

  lemma {:induction false} TrailingSlashes(s: string, n: nat)
    requires n <= |s| && forall i :: n <= i < |s| ==> s[i] == '/'
    ensures Comps(s) == Comps(s[..n])
    decreases |s|
  {
    if n < |s| {
      var m := |s| - 1;
      assert s == s[..m] + "/" + "";
      CompsConcat(s[..m], "");
      TrailingSlashes(s[..m], n);
      assert s[..m][..n] == s[..n];
    } else {
      assert s[..n] == s;
    }
  }

  /** For every path with a component, the base name is its last component and the directory has the
      others; a path without components has "/" for both. */
  lemma DirBaseComponents(s: string)
    ensures Comps(s) != [] ==> Comps(DirOf(s)) + [BaseOf(s)] == Comps(s)
    ensures Comps(s) == [] ==> DirOf(s) == "/" && BaseOf(s) == "/"
  {
    var len := TrimEnd(s, |s|);
    var last := AfterSlash(s, len);
    TrailingSlashes(s, len);
    var t := s[..len];
    assert Comps("/") == [] by { assert "/"[1..] == ""; }
    if last == len {
      assert t == "" || t == "/";
    } else {
      var base := s[last..len];
      CompsOfPlain(base);
      if last == 0 {
        assert t == base;
      } else {
        assert t == s[..last - 1] + "/" + base;
        CompsConcat(s[..last - 1], base);
      }
    }
  }

  /** The directory and base name of a normalised path rebuild it. */
  lemma DirBaseRebuild(stack: seq<string>)
    requires Names(stack) && stack != []
    ensures var p, n := Render(stack), |stack| - 1;
            && DirOf(p) == Render(stack[..n]) && BaseOf(p) == stack[n]
            && p == (if DirOf(p) == "/" then "" else DirOf(p)) + "/" + BaseOf(p)
  {
    hide DirOf, BaseOf;
    var p, n := Render(stack), |stack| - 1;
    var head, c := Cat(stack[..n]), stack[n];
    assert p == head + "/" + c;
    DirBaseOf(p, head, c);
    if n > 0 { CatAbsolute(stack[..n]); CatNotRoot(stack[..n]); } else { assert stack[..n] == []; }
  }

  lemma DirBaseOf(p: string, head: string, c: string)
    requires p == head + "/" + c && Plain(c)
    ensures DirOf(p) == (if head == "" then "/" else head) && BaseOf(p) == c
  {
    hide TrimEnd, AfterSlash;
    SplitAtSlash(p, head, c);
    assert p[..|head|] == head && p[|head| + 1..] == c;
  }

  lemma SplitAtSlash(p: string, head: string, c: string)
    requires p == head + "/" + c && Plain(c)
    ensures TrimEnd(p, |p|) == |p| && AfterSlash(p, |p|) == |head| + 1
  {
    assert p[|p| - 1] == c[|c| - 1];
    assert forall i :: |head| < i < |p| ==> p[i] == c[i - |head| - 1];
    LastSlash(p, |head| + 1);
  }

  lemma CatNotRoot(stack: seq<string>)
    requires Names(stack) && stack != []
    ensures Cat(stack) != "/"
  {
    assert |stack[|stack| - 1]| > 0;
  }

  lemma LastSlash(p: string, k: nat)
    requires 0 < k <= |p| && p[k - 1] == '/' && forall i :: k <= i < |p| ==> p[i] != '/'
    ensures AfterSlash(p, |p|) == k
  {
    var n := AfterSlash(p, |p|);
    assert n == 0 || n <= k;
    assert k <= n;
  }

  /** Joining them gives the path back. */
  lemma JoinDirBase(s: string)
    requires Normalizes(s) && Normal(s) != "/"
    ensures var p := Normal(s); Joins(DirOf(p), BaseOf(p)) && Joined(DirOf(p), BaseOf(p)) == p
  {
    hide Comps, DirOf, BaseOf, Cat, Fold;
    var stack, p := Fold([], Comps(s)), Normal(s);
    NormalStack(s);
    NormalizeIdempotent(s);
    DirBaseRebuild(stack);
    DirBaseComponents(p);
    CompsOfRender(stack);
    var dir, base := DirOf(p), BaseOf(p);
    CompsConcat(dir, base);
    CompsOfPlain(base);
    RenderAbsolute(stack[..|stack| - 1]);
    assert Fits([], Comps(p), |Comps(p)|);
    assert Comps(p)[..|Comps(p)|] == Comps(p);
  }

  // ------------------------------------------------------- normalising as a walk over strings

  /** Where component c leads from the normalised path p: nowhere, to the directory of p, or below p. */
  function Resolved(p: string, c: string): string {
    if c == "" || c == "." then p
    else if c == ".." then DirOf(p)
    else (if p == "/" then "" else p) + "/" + c
  }

  /** The path s followed from the root, one component after the other. */
  function Walked(s: string): string
    decreases |s|
  {
    var n := AfterSlash(s, |s|);
    if n == 0 then Resolved("/", s) else Resolved(Walked(s[..n - 1]), s[n..])
  }

  lemma RootDir()
    ensures DirOf("/") == "/"
  {
    DirBaseComponents("/");
    assert "/"[1..] == "";
  }

  lemma ApplyResolves(stack: seq<string>, c: string)
    requires Names(stack) && Plain(c)
    ensures Render(Apply(stack, c)) == Resolved(Render(stack), c)
  {
    hide DirOf;
    if c == ".." {
      if stack == [] { RootDir(); } else { DirBaseRebuild(stack); }
    } else if c != "." {
      CatLast(stack, c);
      if stack != [] { CatNotRoot(stack); }
    }
  }

  lemma NormalStep(s: string, c: string)
    requires forall i :: 0 <= i < |c| ==> c[i] != '/'
    ensures Normal(s + "/" + c) == Resolved(Normal(s), c)
  {
    hide Comps, Apply, Resolved, Render;
    CompsConcat(s, c);
    if c == "" {
      assert Comps("") == [] by { NoComps(); }
      assert Comps(s) + [] == Comps(s);
      StaysPut(Normal(s));
    } else {
      CompsOfPlain(c);
      NormalStack(s);
      ApplyResolves(Fold([], Comps(s)), c);
      var all := Comps(s) + [c];
      assert all[..|all| - 1] == Comps(s);
    }
  }

  lemma NoComps()
    ensures Comps("") == []
  {
  }

  lemma StaysPut(p: string)
    ensures Resolved(p, "") == p
  {
  }

  /** Normalising follows ".." to the directory, "." nowhere and a name below, from every path. */
  lemma NormalLaws(s: string, c: string)
    ensures Normal(s + "/..") == DirOf(Normal(s)) && Normal(s + "/.") == Normal(s) && Normal(s + "/") == Normal(s)
    ensures Name(c) ==> Normal(s + "/" + c) == (if Normal(s) == "/" then "" else Normal(s)) + "/" + c
    ensures Normal("/") == "/"
  {
    hide Normal, DirOf;
    NormalStep(s, "..");
    NormalStep(s, ".");
    NormalStep(s, "");
    assert s + "/" + ".." == s + "/.." && s + "/" + "." == s + "/." && s + "/" + "" == s + "/";
    if Name(c) { NormalStep(s, c); }
    assert Normal("/") == "/" by { NormalRoot(); }
  }

  lemma NormalRoot()
    ensures Normal("/") == "/" && Normal("") == "/"
  {
    assert "/"[1..] == "";
  }

  /** The stack of components and the walk over strings agree on every path. */
  lemma {:induction false} NormalIsWalked(s: string)
    ensures Normal(s) == Walked(s)
    decreases |s|
  {
    hide Normal, DirOf;
    var n := AfterSlash(s, |s|);
    if n == 0 {
      NormalStep("", s);
      NormalRoot();
      LeadingSlash(s);
    } else {
      NormalIsWalked(s[..n - 1]);
      NormalStep(s[..n - 1], s[n..]);
      assert s == s[..n - 1] + "/" + s[n..];
    }
  }

  lemma LeadingSlash(s: string)
    ensures Normal("" + "/" + s) == Normal(s)
  {
    assert ("" + "/" + s)[1..] == s;
  }

  /** One more component normalises exactly if it has at most 255 bytes and leads to a path of less than
      512 bytes; a slash alone always does. */
  lemma NormalizesStep(s: string, c: string)
    requires Absolute(s) && forall i :: 0 <= i < |c| ==> c[i] != '/'
    ensures Normalizes(s + "/" + c) <==> Normalizes(s) && |c| <= 255 && |Resolved(Normal(s), c)| < 512
    ensures Normalizes("/")
  {
    hide Comps, Apply, Resolved, Render, Fits;
    CompsConcat(s, c);
    var comps := Comps(s);
    assert Normalizes("/") by { RootNormalizes(); }
    if c == "" {
      NoComps();
      assert comps + [] == comps;
      StaysPut(Normal(s));
      if Fine(comps) { WholeFits(comps); }
    } else {
      CompsOfPlain(c);
      NormalStack(s);
      ApplyResolves(Fold([], comps), c);
      FineConcat(comps, [c]);
      OneMore(Fold([], comps), c);
      if Fine(comps) { WholeFits(comps); }
    }
  }

  lemma WholeFits(comps: seq<string>)
    requires Fine(comps)
    ensures |Render(Fold([], comps))| < 512
  {
    assert Fits([], comps, |comps|) && comps[..|comps|] == comps;
  }

  lemma RootNormalizes()
    ensures Normalizes("/")
  {
    assert Comps("/") == [] by { assert "/"[1..] == ""; }
    assert Fits([], [], 0);
  }
}
