/** Renaming the module a model returned (`_apply_naming` in src/mind3/core/driver.py): comments are blanked
    out to find the first declaration, and the declaration is replaced at the same place in the text. */
module Naming {
  import opened Options
  import opened Chars
  import opened RtlIdentity
  import opened Sequences

  /** What `\w` matches: any class that has the ASCII letters, digits and the underscore and leaves out
      white space and the punctuation around a declaration. */
  ghost predicate WordClass(w: char -> bool) {
    && (forall c :: 'a' <= c <= 'z' || 'A' <= c <= 'Z' || '0' <= c <= '9' || c == '_' ==> w(c))
    && (forall c :: IsSpace(c) ==> !w(c))
    && !w('/') && !w('*')
  }

  /** The keyword `module` at the head. */
  predicate ModuleKeyword(s: string) {
    |s| >= 6 && s[0] == 'm' && s[1] == 'o' && s[2] == 'd' && s[3] == 'u' && s[4] == 'l' && s[5] == 'e'
  }

  // ---------------------------------------------------------------- blanking comments

  /** The length of the comment that starts here, 0 if none does: a block comment only if it is closed. */
  function CommentLength(s: string): (n: nat)
    ensures n <= |s|
  {
    if "/*" <= s && AfterClose(s[2..]).0 then |s| - |AfterClose(s[2..]).1|
    else if "//" <= s then |s| - |DropLine(s)|
    else 0
  }

  lemma CommentNotEmpty(s: string)
    ensures "//" <= s || "/*" <= s ==> |DropLine(s)| < |s|
  {
    if "//" <= s || "/*" <= s { assert DropLine(s) == DropLine(s[1..]); }
  }

  /** How far one step of the left-to-right scan goes. */
  function Step(s: string): (n: nat)
    requires s != []
    ensures 0 < n <= |s|
  {
    CommentNotEmpty(s);
    if CommentLength(s) > 0 then CommentLength(s) else 1
  }

  function Spaces(n: nat): (r: string)
    ensures |r| == n
  {
    if n == 0 then [] else [' '] + Spaces(n - 1)
  }

  lemma {:induction false} SpacesBlank(n: nat, i: nat)
    requires i < n
    ensures Spaces(n)[i] == ' '
  {
    if i > 0 { SpacesBlank(n - 1, i - 1); }
  }

  function Mask(s: string): (r: string)
    ensures |r| == |s|
    decreases |s|
  {
    if s == [] then [] else
    Shown(s) + Mask(s[Step(s)..])
  }

  // ---------------------------------------------------------------- finding the declaration

  /** `module\s+[A-Za-z_]\w*` at the head: the length matched, 0 for no match. */
  function DeclLength(w: char -> bool, s: string): (n: nat)
    ensures n <= |s|
  {
    if !ModuleKeyword(s) then 0 else
    var gap := Run(IsSpace, s[6..]);
    if gap == 0 || 6 + gap == |s| || !Letter(s[6 + gap]) then 0
    else 7 + gap + Run(w, s[7 + gap..])
  }

  predicate DeclAt(w: char -> bool, s: string, i: nat)
    requires i <= |s|
  {
    DeclLength(w, s[i..]) > 0 && (i == 0 || !w(s[i - 1]))
  }

  /** Where the first declaration starts, from position `i` on. */
  function FirstDecl(w: char -> bool, s: string, i: nat): (at: Option<nat>)
    requires i <= |s|
    ensures at.Some? ==> i <= at.value <= |s|
    decreases |s| - i
  {
    if DeclAt(w, s, i) then Some(i) else if i == |s| then None else FirstDecl(w, s, i + 1)
  }

  lemma {:induction false} FirstDeclFacts(w: char -> bool, s: string, i: nat)
    requires i <= |s|
    ensures var at := FirstDecl(w, s, i);
      && (at.Some? ==> DeclAt(w, s, at.value))
      && forall k :: i <= k < (if at.Some? then at.value else |s| + 1) ==> !DeclAt(w, s, k)
    decreases |s| - i
  {
    if !DeclAt(w, s, i) && i < |s| { FirstDeclFacts(w, s, i + 1); }
  }

  function Header(name: string): string { ['m', 'o', 'd', 'u', 'l', 'e', ' '] + name }

  /** Where the declaration at `i` ends. */
  function DeclEnd(w: char -> bool, s: string, i: nat): (j: nat)
    requires i <= |s|
    ensures i <= j <= |s|
  {
    i + DeclLength(w, s[i..])
  }

  function Replace(s: string, i: nat, j: nat, h: string): string
    requires i <= j <= |s|
  {
    s[..i] + (h + s[j..])
  }

  /** The text with its first declaration outside comments replaced by `h`. */
  function ReplaceFirst(w: char -> bool, code: string, h: string): string {
    var masked := Mask(code);
    match FirstDecl(w, masked, 0)
    case None => code
    case Some(i) => Replace(code, i, DeclEnd(w, masked, i), h)
  }

  /** `_apply_naming`. */
  function ApplyNaming(w: char -> bool, code: string, name: string): string {
    if name == [] then code else ReplaceFirst(w, code, Header(name))
  }

  ghost predicate Identifier(w: char -> bool, name: string) {
    name != [] && Letter(name[0]) && forall i :: 0 <= i < |name| ==> w(name[i])
  }

  // ---------------------------------------------------------------- the scan

  /** The scan over `s` stops at position `i` outside any comment. */
  ghost predicate Hits(s: string, i: nat)
    decreases |s|
  {
    i == 0 || (s != [] && Step(s) <= i && Hits(s[Step(s)..], i - Step(s)))
  }

  lemma DropTwice(s: string, n: nat, i: nat)
    requires n <= i <= |s|
    ensures s[n..][i - n..] == s[i..]
  {
  }

  lemma DropNone(s: string)
    ensures s[0..] == s
  {
  }

  lemma DropPast(head: string, body: string, i: nat, k: nat)
    requires k <= |body| && i == |head| + k
    ensures (head + body)[i..] == body[k..]
  {
  }

  lemma MaskDrop(s: string, n: nat, i: nat)
    requires s != [] && n == Step(s) <= i <= |s|
    ensures Mask(s)[i..] == Mask(s[n..])[i - n..]
  {
    MaskUnfolds(s);
    DropPast(Shown(s), Mask(s[n..]), i, i - n);
  }

  ghost predicate SplitsAt(s: string, i: nat) { i <= |s| && Mask(s)[i..] == Mask(s[i..]) }

  lemma SplitsNone(s: string)
    ensures SplitsAt(s, 0)
  {
    DropNone(s);
    DropNone(Mask(s));
  }

  lemma SplitsOn(s: string, i: nat, rest: string, k: nat)
    requires s != [] && Step(s) <= i <= |s| && rest == s[Step(s)..] && k == i - Step(s) && SplitsAt(rest, k)
    ensures SplitsAt(s, i)
  {
    DropTwice(s, Step(s), i);
    MaskDrop(s, Step(s), i);
  }

  lemma GoesOn(s: string, i: nat, rest: string, k: nat)
    requires Hits(s, i) && i > 0 && rest == s[Step(s)..] && k == i - Step(s)
    ensures Hits(rest, k)
  {
  }

  /** Masking splits wherever the scan stops. */
  lemma {:induction false} MaskSplits(s: string, i: nat)
    requires i <= |s| && Hits(s, i)
    ensures SplitsAt(s, i)
    decreases |s|
  {
    if i == 0 {
      SplitsNone(s);
    } else {
      var rest, k := s[Step(s)..], i - Step(s);
      GoesOn(s, i, rest, k);
      MaskSplits(rest, k);
      SplitsOn(s, i, rest, k);
    }
  }

  lemma MaskedStep(s: string, i: nat)
    requires s != [] && i < Step(s) && Mask(s)[i] != ' '
    ensures CommentLength(s) == 0 && i == 0
  {
    if CommentLength(s) > 0 { SpacesBlank(Step(s), i); }
  }

  /** Text that survives the mask is text the scan stopped at, before and after. */
  lemma {:induction false} VisibleHit(s: string, i: nat)
    requires i < |s| && Mask(s)[i] != ' '
    ensures Hits(s, i) && Hits(s, i + 1) && Mask(s)[i] == s[i]
    decreases |s|
  {
    var n := Step(s);
    MaskUnfolds(s);
    if i < n {
      MaskedStep(s, i);
      StepHits(s, n, 1);
    } else {
      var rest, k := s[n..], i - n;
      LaterChar(Shown(s), Mask(rest), i, k);
      VisibleHit(rest, k);
      HitsLater(s, i, rest, k);
      HitsLater(s, i + 1, rest, k + 1);
    }
  }

  lemma HitsLater(s: string, i: nat, rest: string, k: nat)
    requires s != [] && Step(s) <= i && rest == s[Step(s)..] && k == i - Step(s) && Hits(rest, k)
    ensures Hits(s, i)
  {
  }

  lemma LaterChar(head: string, body: string, i: nat, k: nat)
    requires k < |body| && i == |head| + k
    ensures (head + body)[i] == body[k]
  {
  }

  // ---------------------------------------------------------------- replacing what follows a stop

  /** `u` with everything from position `n` on replaced by `v`. */
  function Spliced(u: string, n: nat, v: string): string
    requires n <= |u|
  {
    u[..n] + v
  }

  lemma SplicedTail(u: string, n: nat, v: string)
    requires 0 < n <= |u|
    ensures Spliced(u, n, v) != [] && Spliced(u, n, v)[0] == u[0]
    ensures Spliced(u, n, v)[1..] == Spliced(u[1..], n - 1, v)
  {
  }

  lemma {:induction false} SplicedDrop(u: string, n: nat, v: string, k: nat)
    requires k <= n <= |u|
    ensures |Spliced(u, n, v)| >= k && Spliced(u, n, v)[k..] == Spliced(u[k..], n - k, v)
  {
    assert u[k..][..n - k] == u[..n][k..];
  }

  lemma PairSpliced(u: string, n: nat, v: string, a: char, b: char)
    requires 0 < n < |u| && v != [] && v[0] == u[n]
    ensures [a, b] <= Spliced(u, n, v) <==> [a, b] <= u
  {
    PairAt(u, a, b);
    PairAt(Spliced(u, n, v), a, b);
  }

  /** A comment closed before the splice stays closed at the same place. */
  lemma {:induction false} CloseSpliced(u: string, n: nat, v: string)
    requires n < |u| && v != [] && v[0] == u[n] && AfterClose(u).0 && |u| - |AfterClose(u).1| <= n
    ensures AfterClose(Spliced(u, n, v)).0
    ensures |Spliced(u, n, v)| - |AfterClose(Spliced(u, n, v)).1| == |u| - |AfterClose(u).1|
  {
    PairSpliced(u, n, v, '*', '/');
    SplicedTail(u, n, v);
    if !("*/" <= u) { CloseSpliced(u[1..], n - 1, v); }
  }

  /** No close marker appears by splicing in a text that has none. */
  lemma {:induction false} NoCloseSpliced(u: string, n: nat, v: string)
    requires n < |u| && v != [] && v[0] == u[n] && !HasClose(u) && !HasClose(v)
    ensures !HasClose(Spliced(u, n, v))
  {
    if n == 0 {
      assert Spliced(u, n, v) == v;
    } else {
      PairSpliced(u, n, v, '*', '/');
      SplicedTail(u, n, v);
      NoCloseSpliced(u[1..], n - 1, v);
    }
  }

  lemma {:induction false} LineSpliced(u: string, n: nat, v: string)
    requires n < |u| && v != [] && v[0] == u[n] && |u| - |DropLine(u)| <= n
    ensures |Spliced(u, n, v)| - |DropLine(Spliced(u, n, v))| == |u| - |DropLine(u)|
  {
    if n == 0 {
      assert Spliced(u, n, v) == v;
    } else {
      SplicedTail(u, n, v);
      if u[0] != '\n' { LineSpliced(u[1..], n - 1, v); }
    }
  }

  lemma {:induction false} CloseSuffix(s: string, i: nat)
    requires i <= |s| && HasClose(s[i..])
    ensures HasClose(s)
  {
    if i > 0 {
      assert s[1..][i - 1..] == s[i..];
      CloseSuffix(s[1..], i - 1);
    } else {
      assert s[0..] == s;
    }
  }

  /** The next text begins like the old one, and closes no comment the old one does not. */
  ghost predicate Fits(s: string, i: nat, t: string) {
    i < |s| && t != [] && t[0] == s[i] && s[i] != '*' && s[i] != '/' && (HasClose(t) ==> HasClose(s[i..]))
  }

  lemma StepSpliced(s: string, i: nat, t: string)
    requires Fits(s, i, t) && i > 0 && Step(s) <= i
    ensures CommentLength(Spliced(s, i, t)) == CommentLength(s)
  {
    var r := Spliced(s, i, t);
    PairSpliced(s, i, t, '/', '*');
    PairSpliced(s, i, t, '/', '/');
    if "/*" <= s {
      PairAt(s, '/', '*');
      SplicedDrop(s, i, t, 2);
      assert s[2..][i - 2] == s[i];
      if AfterClose(s[2..]).0 {
        CloseSpliced(s[2..], i - 2, t);
      } else {
        if HasClose(t) {
          assert s[2..][i - 2..] == s[i..];
          CloseSuffix(s[2..], i - 2);
        }
        NoCloseSpliced(s[2..], i - 2, t);
      }
    } else if "//" <= s {
      LineSpliced(s, i, t);
    }
  }

  lemma NothingBefore(s: string, t: string)
    ensures Spliced(s, 0, t) == t && s[..0] + t == t
  {
  }

  /** `t` may stand where `u` stands. */
  ghost predicate Replaces(u: string, t: string) { u != [] && Fits(u, 0, t) }

  lemma FitsThere(s: string, i: nat, u: string, t: string)
    requires i <= |s| && u == s[i..] && Replaces(u, t)
    ensures Fits(s, i, t)
  {
    DropNone(u);
    assert s[i] == u[0];
  }

  /** With `t` from `i` on, the scan still stops at `i`, and the mask changes only from there on. */
  ghost predicate SameFront(s: string, i: nat, t: string) {
    i <= |s| && Hits(Spliced(s, i, t), i) && Mask(Spliced(s, i, t)) == Mask(s)[..i] + Mask(t)
  }

  lemma FrontNone(s: string, t: string)
    ensures SameFront(s, 0, t)
  {
    NothingBefore(s, t);
    NothingBefore(Mask(s), Mask(t));
  }

  lemma {:induction false} MaskSplicedAt(s: string, i: nat, u: string, t: string)
    requires i <= |s| && u == s[i..] && Replaces(u, t) && Hits(s, i)
    ensures SameFront(s, i, t)
    decreases |s|
  {
    if i == 0 {
      FrontNone(s, t);
    } else {
      var rest, k := s[Step(s)..], i - Step(s);
      GoesOn(s, i, rest, k);
      DropTwice(s, Step(s), i);
      MaskSplicedAt(rest, k, u, t);
      FrontOn(s, i, rest, k, u, t);
    }
  }

  lemma FrontOn(s: string, i: nat, rest: string, k: nat, u: string, t: string)
    requires s != [] && 0 < Step(s) <= i <= |s| && u == s[i..] && Replaces(u, t)
    requires rest == s[Step(s)..] && k == i - Step(s) && SameFront(rest, k, t)
    ensures SameFront(s, i, t)
  {
    FitsThere(s, i, u, t);
    SplicedStep(s, Spliced(s, i, t), Step(s), i, t);
  }

  /** Up to a stop the mask of a text does not depend on what follows. */
  lemma MaskSpliced(s: string, i: nat, t: string)
    requires Fits(s, i, t) && Hits(s, i)
    ensures Hits(Spliced(s, i, t), i) && Mask(Spliced(s, i, t)) == Mask(s)[..i] + Mask(t)
  {
    var u := s[i..];
    DropNone(u);
    assert u[0] == s[i];
    MaskSplicedAt(s, i, u, t);
  }

  lemma SplicedStep(s: string, r: string, n: nat, i: nat, t: string)
    requires Fits(s, i, t) && i > 0 && n == Step(s) <= i && r == Spliced(s, i, t)
    requires SameFront(s[n..], i - n, t)
    ensures SameFront(s, i, t)
  {
    StepSpliced(s, i, t);
    SplicedTail(s, i, t);
    SplicedDrop(s, i, t, n);
    SameShown(s, r);
    OneStep(s, r, n, i, Mask(t));
    StepHits(r, n, i);
  }

  /** Two texts whose first step is the same one. */
  lemma OneStep(s: string, r: string, n: nat, i: nat, tail: string)
    requires s != [] && r != [] && r[0] == s[0] && CommentLength(r) == CommentLength(s) && n == Step(s) <= i <= |s| && |r| >= n
    requires Mask(r[n..]) == Mask(s[n..])[..i - n] + tail
    ensures Mask(r) == Mask(s)[..i] + tail
  {
    SameShown(s, r);
    MaskBegins(s, n, Shown(s));
    MaskBegins(r, n, Shown(s));
    Assemble(Mask(s), Mask(r), Shown(s), Mask(s[n..]), Mask(r[n..]), tail, i - n, i);
  }

  lemma MaskBegins(s: string, n: nat, head: string)
    requires s != [] && n == Step(s) && head == Shown(s)
    ensures Mask(s) == head + Mask(s[n..])
  {
  }

  lemma SameShown(s: string, r: string)
    requires s != [] && r != [] && r[0] == s[0] && CommentLength(r) == CommentLength(s)
    ensures Shown(r) == Shown(s) && Step(r) == Step(s)
  {
  }

  lemma StepHits(r: string, n: nat, i: nat)
    requires r != [] && n == Step(r) <= i && Hits(r[n..], i - n)
    ensures Hits(r, i)
  {
  }

  lemma Assemble(ms: string, mr: string, head: string, body: string, body': string, tail: string, k: nat, i: nat)
    requires ms == head + body && mr == head + body' && k <= |body| && body' == body[..k] + tail && i == |head| + k
    ensures mr == ms[..i] + tail
  {
  }

  lemma MaskUnfolds(s: string)
    requires s != []
    ensures Mask(s) == Shown(s) + Mask(s[Step(s)..])
  {
  }

  /** What one step of the scan puts into the mask. */
  function Shown(s: string): (r: string)
    requires s != []
    ensures |r| == Step(s)
  {
    if CommentLength(s) > 0 then Spaces(Step(s)) else [s[0]]
  }

  // ---------------------------------------------------------------- the renamed text

  /** A declaration starts with a letter and ends with one character of a name that no more name follows. */
  lemma DeclShape(w: char -> bool, s: string)
    requires WordClass(w) && DeclLength(w, s) > 0
    ensures var n := DeclLength(w, s); s[0] == 'm' && n >= 8 && w(s[n - 1]) && (n < |s| ==> !w(s[n]))
  {
    var gap := Run(IsSpace, s[6..]);
    var run := Run(w, s[7 + gap..]);
    RunEnds(w, s[7 + gap..]);
    if run > 0 { RunAll(w, s[7 + gap..], run - 1); }
    if run > 0 { assert s[7 + gap..][run - 1] == s[6 + gap + run]; }
    if 7 + gap + run < |s| { assert s[7 + gap..][run] == s[7 + gap + run]; }
  }

  /** The new header in front of the old rest is a declaration of exactly the new header's length. */
  lemma HeaderDeclares(w: char -> bool, name: string, rest: string)
    requires WordClass(w) && Identifier(w, name) && (rest != [] ==> !w(rest[0]))
    ensures DeclLength(w, Header(name) + rest) == |Header(name)|
  {
    HeaderParts(name, rest);
    var s := Header(name) + rest;
    var after := s[6..];
    assert after[1..] == s[7..] && IsSpace(' ') && !IsSpace(name[0]);
    SpaceRunIs(after, 1);
    RunIs(w, name[1..], rest);
  }

  lemma HeaderParts(name: string, rest: string)
    requires name != []
    ensures var s := Header(name) + rest;
      && ModuleKeyword(s) && |s| >= 8 && s[6] == ' ' && s[7] == name[0] && s[8..] == name[1..] + rest
  {
  }

  /** Plain text in front is masked as itself and hides no close marker. */
  lemma {:induction false} PlainFront(a: string, b: string)
    requires forall i :: 0 <= i < |a| ==> a[i] != '/' && a[i] != '*'
    ensures Mask(a + b) == a + Mask(b)
    ensures HasClose(a + b) <==> HasClose(b)
  {
    if a == [] {
      assert a + b == b;
    } else {
      var s := a + b;
      PairAt(s, '/', '*'); PairAt(s, '/', '/'); PairAt(s, '*', '/');
      assert s[1..] == a[1..] + b;
      PlainFront(a[1..], b);
      MaskBegins(s, 1, [s[0]]);
      assert a == [s[0]] + a[1..];
      Assoc([s[0]], a[1..], Mask(b));
    }
  }

  lemma SpaceRunIs(s: string, n: nat)
    requires n <= |s| && All(IsSpace, s[..n]) && (n < |s| ==> !IsSpace(s[n]))
    ensures Run(IsSpace, s) == n
  {
    assert s == s[..n] + s[n..];
    RunIs(IsSpace, s[..n], s[n..]);
  }

  /** A declaration that starts before the first one of the old text would already have been there. */
  lemma EarlierDecl(w: char -> bool, x: string, y: string, i: nat, k: nat)
    requires WordClass(w) && k < i < |x| && i < |y| && x[..i] == y[..i]
    requires DeclAt(w, x, i) && y[i] == 'm' && DeclAt(w, y, k)
    ensures DeclAt(w, x, k)
  {
    DeclShape(w, x[i..]);
    assert x[i] == x[i..][0] == 'm';
    assert forall j :: 0 <= j < i ==> x[j] == x[..i][j] == y[j];
    if i < k + 6 {
      LetterInside(w, y, k, i);
      assert false;
    }
    DeclMoves(w, x, y, i, k);
  }

  lemma LetterInside(w: char -> bool, y: string, k: nat, i: nat)
    requires WordClass(w) && k < i < k + 6 && i < |y| && ModuleKeyword(y[k..])
    ensures w(y[i - 1])
  {
    assert y[i - 1] == y[k..][i - 1 - k];
  }

  lemma DeclMoves(w: char -> bool, x: string, y: string, i: nat, k: nat)
    requires WordClass(w) && k + 6 <= i < |x| && i < |y| && (forall j :: 0 <= j < i ==> x[j] == y[j])
    requires x[i] == 'm' && y[i] == 'm' && DeclAt(w, y, k)
    ensures DeclAt(w, x, k)
  {
    var here := y[k..];
    var gap := Run(IsSpace, here[6..]);
    SameGap(x, y, i, k, gap);
    assert here[6 + gap] == y[k + 6 + gap];
    assert x[k..][6 + gap] == x[k + 6 + gap];
  }

  lemma SameGap(x: string, y: string, i: nat, k: nat, gap: nat)
    requires k + 6 <= i < |x| && i < |y| && (forall j :: 0 <= j < i ==> x[j] == y[j]) && x[i] == 'm' && y[i] == 'm'
    requires gap == Run(IsSpace, y[k..][6..])
    ensures k + 6 + gap <= i && Run(IsSpace, x[k..][6..]) == gap
  {
    var before, after := y[k..][6..], x[k..][6..];
    RunEnds(IsSpace, before);
    forall j | 0 <= j < gap ensures IsSpace(before[j]) { RunAll(IsSpace, before, j); }
    assert before[i - k - 6] == 'm' && !IsSpace('m');
    forall j | 0 <= j <= gap && j < |before| && j + k + 6 <= i ensures after[j] == before[j] {}
    SpaceRunIs(after, gap);
  }

  ghost predicate FirstAt(w: char -> bool, s: string, i: nat) {
    i < |s| && DeclAt(w, s, i) && forall k :: 0 <= k < i ==> !DeclAt(w, s, k)
  }

  lemma FirstDeclIs(w: char -> bool, s: string, i: nat)
    ensures FirstDecl(w, s, 0) == Some(i) <==> FirstAt(w, s, i)
  {
    var at := FirstDecl(w, s, 0);
    FirstDeclFacts(w, s, 0);
    if at.Some? { DeclNotAtEnd(w, s, at.value); }
  }

  lemma DeclNotAtEnd(w: char -> bool, s: string, i: nat)
    requires i <= |s| && DeclAt(w, s, i)
    ensures i < |s|
  {
  }

  /** The scan stops outside comments at both ends of visible text. */
  lemma VisibleEnds(code: string, i: nat, j: nat)
    requires i < j <= |code| && Mask(code)[i] == 'm' && Mask(code)[j - 1] != ' '
    ensures Hits(code, i) && code[i] == 'm' && Mask(code)[j..] == Mask(code[j..])
  {
    VisibleHit(code, i);
    VisibleBefore(code, j - 1, j);
    MaskSplits(code, j);
  }

  lemma VisibleBefore(s: string, k: nat, j: nat)
    requires k < |s| && Mask(s)[k] != ' ' && j == k + 1
    ensures Hits(s, j)
  {
    VisibleHit(s, k);
  }

  lemma DeclEnds(w: char -> bool, s: string, i: nat, j: nat)
    requires WordClass(w) && i < |s| && DeclAt(w, s, i) && j == DeclEnd(w, s, i)
    ensures s[i] == 'm' && i + 8 <= j && s[j - 1] != ' ' && (j < |s| ==> !w(s[j]))
  {
    DeclShape(w, s[i..]);
    assert s[i] == s[i..][0] && s[j - 1] == s[i..][j - 1 - i];
    if j < |s| { assert s[j] == s[i..][j - i]; }
    assert IsSpace(' ');
  }

  ghost predicate Plain(h: string) { forall k :: 0 <= k < |h| ==> h[k] != '/' && h[k] != '*' }

  lemma PlainFits(code: string, h: string, i: nat, j: nat)
    requires i < j <= |code| && code[i] == 'm' && Plain(h) && h != [] && h[0] == 'm'
    ensures Fits(code, i, h + code[j..])
  {
    PlainFront(h, code[j..]);
    CloseTail(code, i, j);
  }

  lemma CloseTail(code: string, i: nat, j: nat)
    requires i <= j <= |code|
    ensures HasClose(code[j..]) ==> HasClose(code[i..])
  {
    if HasClose(code[j..]) {
      assert code[i..][j - i..] == code[j..];
      CloseSuffix(code[i..], j - i);
    }
  }

  /** What the scan sees of the renamed text: the old mask with the new header in place of the old one. */
  lemma RenamedMask(code: string, h: string, i: nat, j: nat)
    requires i < j <= |code| && Mask(code)[i] == 'm' && Mask(code)[j - 1] != ' '
    requires Plain(h) && h != [] && h[0] == 'm'
    ensures Mask(Replace(code, i, j, h)) == Replace(Mask(code), i, j, h)
  {
    VisibleEnds(code, i, j);
    PlainFits(code, h, i, j);
    MaskSpliced(code, i, h + code[j..]);
    PlainFront(h, code[j..]);
  }

  lemma PlainHeader(w: char -> bool, name: string)
    requires WordClass(w) && Identifier(w, name)
    ensures Plain(Header(name)) && Header(name)[0] == 'm'
  {
    forall k | 0 <= k < |Header(name)| ensures Header(name)[k] != '/' && Header(name)[k] != '*' {
      if k >= 7 { assert Header(name)[k] == name[k - 7]; }
    }
  }

  /** The first declaration outside comments of the renamed text is exactly the new header, at the place where
      the old one was. */
  lemma RenamedFirst(w: char -> bool, x: string, name: string, i: nat, j: nat, y: string)
    requires WordClass(w) && Identifier(w, name) && FirstAt(w, x, i) && j == DeclEnd(w, x, i)
    requires y == Replace(x, i, j, Header(name))
    ensures HeaderAt(w, y, i, Header(name))
  {
    DeclShape(w, x[i..]);
    if j < |x| { assert x[i..][j - i] == x[j]; }
    HeaderDeclares(w, name, x[j..]);
    assert y[i..] == Header(name) + x[j..];
    assert y[..i] == x[..i];
    if i > 0 { assert y[i - 1] == y[..i][i - 1] == x[i - 1]; }
    forall k | 0 <= k < i ensures !DeclAt(w, y, k) {
      if DeclAt(w, y, k) { EarlierDecl(w, x, y, i, k); }
    }
    FirstDeclIs(w, y, i);
  }

  /** The first declaration of the masked text `y` is the header `h`, at position `i`. */
  ghost predicate HeaderAt(w: char -> bool, y: string, i: nat, h: string) {
    FirstDecl(w, y, 0) == Some(i) && DeclEnd(w, y, i) == i + |h|
  }

  /** `after` is `code` with its first declaration outside comments, the one from `i` to `j`, replaced by `h`:
      the text before and after stays, so do the comments, and the first declaration of `after` is `h`. */
  ghost predicate FirstRenamed(w: char -> bool, code: string, h: string, i: nat, j: nat, after: string) {
    && i <= j <= |code| && FirstAt(w, Mask(code), i) && j == DeclEnd(w, Mask(code), i)
    && after == Replace(code, i, j, h)
    && Mask(after) == Replace(Mask(code), i, j, h)
    && HeaderAt(w, Mask(after), i, h)
  }

  lemma RenamedAt(w: char -> bool, code: string, name: string, i: nat, j: nat)
    requires WordClass(w) && Identifier(w, name) && FirstAt(w, Mask(code), i) && j == DeclEnd(w, Mask(code), i)
    ensures FirstRenamed(w, code, Header(name), i, j, Replace(code, i, j, Header(name)))
  {
    RenamedMaskAt(w, code, name, i, j);
    RenamedFirst(w, Mask(code), name, i, j, Mask(Replace(code, i, j, Header(name))));
  }

  lemma RenamedMaskAt(w: char -> bool, code: string, name: string, i: nat, j: nat)
    requires WordClass(w) && Identifier(w, name) && FirstAt(w, Mask(code), i) && j == DeclEnd(w, Mask(code), i)
    ensures Mask(Replace(code, i, j, Header(name))) == Replace(Mask(code), i, j, Header(name))
  {
    PlainHeader(w, name);
    DeclEnds(w, Mask(code), i, j);
    RenamedMask(code, Header(name), i, j);
  }

  /** Renaming with an identifier changes nothing but the first declaration outside comments. */
  lemma RenamesFirstOnly(w: char -> bool, code: string, name: string)
    requires WordClass(w) && Identifier(w, name)
    ensures var first := FirstDecl(w, Mask(code), 0);
      if first.None? then ApplyNaming(w, code, name) == code
      else FirstRenamed(w, code, Header(name), first.value, DeclEnd(w, Mask(code), first.value), ApplyNaming(w, code, name))
  {
    var first := FirstDecl(w, Mask(code), 0);
    if first.Some? {
      FirstDeclIs(w, Mask(code), first.value);
      RenamedAt(w, code, name, first.value, DeclEnd(w, Mask(code), first.value));
      ReplacedAt(w, code, Header(name), first.value, DeclEnd(w, Mask(code), first.value));
    }
  }

  /** Renaming twice is renaming once. */
  lemma RenamingTwice(w: char -> bool, code: string, name: string)
    requires WordClass(w) && Identifier(w, name)
    ensures ApplyNaming(w, ApplyNaming(w, code, name), name) == ApplyNaming(w, code, name)
  {
    RenamesFirstOnly(w, code, name);
    var first := FirstDecl(w, Mask(code), 0);
    if first.Some? {
      var i, h, after := first.value, Header(name), ApplyNaming(w, code, name);
      RenamedSettles(w, code, h, i, DeclEnd(w, Mask(code), i), after);
      SettledStays(w, after, h, i);
    }
  }

  /** `h` is there already: putting it at `i` again changes nothing. */
  ghost predicate Settled(s: string, i: nat, h: string) {
    i + |h| <= |s| && s[i..i + |h|] == h
  }

  lemma RenamedSettles(w: char -> bool, code: string, h: string, i: nat, j: nat, after: string)
    requires FirstRenamed(w, code, h, i, j, after)
    ensures Settled(after, i, h) && HeaderAt(w, Mask(after), i, h)
  {
    ReplaceSettles(code, i, j, h);
  }

  lemma ReplaceSettles(s: string, i: nat, j: nat, h: string)
    requires i <= j <= |s|
    ensures Settled(Replace(s, i, j, h), i, h)
  {
  }

  lemma ReplacedAt(w: char -> bool, code: string, h: string, i: nat, j: nat)
    requires FirstDecl(w, Mask(code), 0) == Some(i) && j == DeclEnd(w, Mask(code), i)
    ensures ReplaceFirst(w, code, h) == Replace(code, i, j, h)
  {
  }

  lemma SettledReplaced(s: string, i: nat, j: nat, h: string)
    requires Settled(s, i, h) && j == i + |h|
    ensures Replace(s, i, j, h) == s
  {
    assert s == s[..i] + (s[i..j] + s[j..]);
  }

  lemma SettledStays(w: char -> bool, code: string, h: string, i: nat)
    requires HeaderAt(w, Mask(code), i, h) && Settled(code, i, h)
    ensures ReplaceFirst(w, code, h) == code
  {
    var j := i + |h|;
    SettledReplaced(code, i, j, h);
    ReplacedAt(w, code, h, i, j);
  }
}
