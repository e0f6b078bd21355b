/**
 * The scraper's driver: the counter logic of `run` (the page's post list read through an oracle
 * giving the number of posts at each read) and `traverseElementsToGetText` over a DOM tree.
 */
module Harvest {
  /** `let scrolls = 50`: how many times the page is scrolled and the post list re-read. */
  const InitialScrolls: nat := 50

  function Min(a: nat, b: nat): nat {
    if a <= b then a else b
  }

  /**
   * The loop stops after `n` iterations when the post list current at that point holds at most
   * `n` posts; the list current after iteration `n` is the one read by call `Min(n, 50)`.
   */
  predicate StopsAt(postCounts: nat -> nat, n: nat) {
    n >= postCounts(Min(n, InitialScrolls))
  }

  /**
   * `run`'s loop counters: `posts = getAllPosts()`, then one iteration per post, each
   * incrementing `i` and, while `scrolls` is positive, decrementing it and re-reading the list.
   * `postCounts(k)` is the length of the list returned by the `k`-th call to `getAllPosts`.
   * The loop runs until the first `n` at which it may stop.
   */
  method Run(postCounts: nat -> nat) returns (iterations: nat, scrolls: nat, postReads: nat)
    ensures StopsAt(postCounts, iterations)
    ensures forall n: nat | n < iterations :: !StopsAt(postCounts, n)
    ensures scrolls == InitialScrolls - Min(iterations, InitialScrolls)
    ensures postReads == 1 + Min(iterations, InitialScrolls)
  {
    scrolls := InitialScrolls;
    var posts := postCounts(0);
    postReads := 1;
    var i := 0;
    while i < posts
      invariant scrolls == InitialScrolls - Min(i, InitialScrolls)
      invariant postReads == 1 + Min(i, InitialScrolls)
      invariant posts == postCounts(Min(i, InitialScrolls))
      invariant forall n | n < i :: !StopsAt(postCounts, n)
      decreases scrolls, if i <= posts then posts - i else 0
    {
      i := i + 1;
      if scrolls > 0 {
        scrolls := scrolls - 1;
        posts := postCounts(postReads);
        postReads := postReads + 1;
      }
    }
    iterations := i;
  }

  /**
   * Once the scrolls are spent the list no longer changes, so the loop runs at most 50 iterations
   * more than the last list holds, and never past the larger of 50 and that list's length.
   */
  lemma RunBound(postCounts: nat -> nat, n: nat)
    requires StopsAt(postCounts, n)
    requires forall m: nat | m < n :: !StopsAt(postCounts, m)
    ensures n <= InitialScrolls || n == postCounts(InitialScrolls)
    ensures n <= InitialScrolls + postCounts(Min(n, InitialScrolls))
  {
    if n > InitialScrolls {
      assert !StopsAt(postCounts, n - 1);
    }
  }

  /** With an unchanging page of `p` posts, the loop runs exactly `p` times. */
  lemma RunFixedPage(postCounts: nat -> nat, p: nat, n: nat)
    requires forall k :: postCounts(k) == p
    requires StopsAt(postCounts, n)
    requires forall m: nat | m < n :: !StopsAt(postCounts, m)
    ensures n == p
  {
    if n > p {
      assert StopsAt(postCounts, p);
    }
  }

  // ---------------------------------------------------------------------------------------------
  // traverseElementsToGetText

  /** `Node.TEXT_NODE`. */
  const TextNode: int := 3

  /** A DOM node: its `nodeType`, its `nodeValue` (text nodes only) and its `childNodes`. */
  datatype Dom = Dom(nodeType: int, nodeValue: string, children: seq<Dom>)

  /** The characters `String.prototype.trim` removes: white space and line terminators. */
  predicate IsJsSpace(c: char) {
    c == '\t' || c == '\n' || c == '\U{000B}' || c == '\U{000C}' || c == '\r' || c == ' '
    || c == '\U{00A0}' || c == '\U{1680}' || ('\U{2000}' <= c <= '\U{200A}')
    || c == '\U{2028}' || c == '\U{2029}' || c == '\U{202F}' || c == '\U{205F}'
    || c == '\U{3000}' || c == '\U{FEFF}'
  }

  function TrimStart(s: string): (r: string)
    ensures |r| <= |s|
    ensures r != [] ==> !IsJsSpace(r[0])
  {
    if s != [] && IsJsSpace(s[0]) then TrimStart(s[1..]) else s
  }

  /** `TrimStart` keeps a suffix. */
  lemma {:induction false} TrimStartSuffix(s: string)
    ensures TrimStart(s) == s[|s| - |TrimStart(s)|..]
    decreases |s|
  {
    if s != [] && IsJsSpace(s[0]) {
      TrimStartSuffix(s[1..]);
      assert s[1..][|s| - 1 - |TrimStart(s)|..] == s[|s| - |TrimStart(s)|..];
    }
  }

  function TrimEnd(s: string): (r: string)
    ensures |r| <= |s|
    ensures r != [] ==> !IsJsSpace(r[|r| - 1])
  {
    if s != [] && IsJsSpace(s[|s| - 1]) then TrimEnd(s[..|s| - 1]) else s
  }

  /** `TrimEnd` keeps a prefix. */
  lemma {:induction false} TrimEndPrefix(s: string)
    ensures TrimEnd(s) == s[..|TrimEnd(s)|]
    decreases |s|
  {
    if s != [] && IsJsSpace(s[|s| - 1]) {
      TrimEndPrefix(s[..|s| - 1]);
      assert s[..|s| - 1][..|TrimEnd(s)|] == s[..|TrimEnd(s)|];
    }
  }

  /** What `TrimStart` drops is white space. */
  lemma {:induction false} TrimStartDropsSpace(s: string)
    ensures forall k | 0 <= k < |s| - |TrimStart(s)| :: IsJsSpace(s[k])
    decreases |s|
  {
    if s != [] && IsJsSpace(s[0]) {
      TrimStartDropsSpace(s[1..]);
      forall k | 0 <= k < |s| - |TrimStart(s)| ensures IsJsSpace(s[k]) {
        if k > 0 { assert s[k] == s[1..][k - 1]; }
      }
    }
  }

  /** What `TrimEnd` drops is white space. */
  lemma {:induction false} TrimEndDropsSpace(s: string)
    ensures forall k | |TrimEnd(s)| <= k < |s| :: IsJsSpace(s[k])
    decreases |s|
  {
    if s != [] && IsJsSpace(s[|s| - 1]) {
      TrimEndDropsSpace(s[..|s| - 1]);
      forall k | |TrimEnd(s)| <= k < |s| ensures IsJsSpace(s[k]) {
        if k < |s| - 1 { assert s[k] == s[..|s| - 1][k]; }
      }
    }
  }

  /** `s.trim()`: `s` without its leading and trailing white space. */
  function Trim(s: string): string {
    TrimEnd(TrimStart(s))
  }

  /** A non-empty trimmed text has no white space at either end. */
  lemma TrimEnds(s: string)
    ensures Trim(s) != [] ==> IsTrimmedText(Trim(s))
  {
    var t := TrimStart(s);
    var r := TrimEnd(t);
    TrimEndPrefix(t);
    assert r != [] ==> r[0] == t[0];
  }

  /**
   * A trimmed text is a slice of the text with only white space outside it; it has no white
   * space at either end, and is empty only for all-space text.
   */
  lemma TrimSpec(s: string)
    ensures var r := Trim(s);
      && (exists a, b | 0 <= a <= b <= |s| ::
            r == s[a..b] && (forall k | 0 <= k < a || b <= k < |s| :: IsJsSpace(s[k])))
      && (r == [] || (!IsJsSpace(r[0]) && !IsJsSpace(r[|r| - 1])))
      && (r == [] <==> forall k | 0 <= k < |s| :: IsJsSpace(s[k]))
      && |r| <= |s|
  {
    var t := TrimStart(s);
    var r := TrimEnd(t);
    TrimEnds(s);
    TrimStartSuffix(s);
    TrimEndPrefix(t);
    TrimStartDropsSpace(s);
    TrimEndDropsSpace(t);
    TrimSlice(s);
    if r == [] {
      forall k | 0 <= k < |s| ensures IsJsSpace(s[k]) {
        if k >= |s| - |t| {
          assert s[k] == t[k - (|s| - |t|)];
        }
      }
    } else {
      assert !IsJsSpace(s[|s| - |t|]) by { assert s[|s| - |t|] == t[0]; }
    }
  }

  /** `Trim(s)` is the slice of `s` between its leading and its trailing white space. */
  lemma TrimSlice(s: string)
    ensures exists a, b | 0 <= a <= b <= |s| ::
      Trim(s) == s[a..b] && (forall k | 0 <= k < a || b <= k < |s| :: IsJsSpace(s[k]))
  {
    var t := TrimStart(s);
    var r := TrimEnd(t);
    TrimStartSuffix(s);
    TrimEndPrefix(t);
    TrimStartDropsSpace(s);
    TrimEndDropsSpace(t);
    var a := |s| - |t|;
    var b := a + |r|;
    assert r == s[a..b] by {
      assert t == s[a..];
      assert r == t[..|r|];
    }
    forall k | b <= k < |s| ensures IsJsSpace(s[k]) {
      assert s[k] == t[k - a];
    }
  }

  /** What a childless node contributes: its trimmed text, for a text node that has some. */
  function LeafText(n: Dom): seq<string> {
    if n.nodeType == TextNode && Trim(n.nodeValue) != "" then [Trim(n.nodeValue)] else []
  }

  /** The texts `traverseElementsToGetText` collects from `n`, in document order. */
  function Texts(n: Dom): seq<string>
    decreases n, 1
  {
    if |n.children| > 0 then ChildTexts(n, |n.children|) else LeafText(n)
  }

  /** The texts of the first `k` children of `n`, concatenated. */
  function ChildTexts(n: Dom, k: nat): seq<string>
    requires k <= |n.children|
    decreases n, 0, k
  {
    if k == 0 then [] else ChildTexts(n, k - 1) + Texts(n.children[k - 1])
  }

  /** `traverseElementsToGetText(element)`. */
  method TraverseElementsToGetText(element: Dom) returns (textArray: seq<string>)
    ensures textArray == Texts(element)
    decreases element, 2
  {
    textArray := [];
    if |element.children| > 0 {
      textArray := TraverseChildren(element);
      ChildTextsAll(element);
    } else {
      assert Texts(element) == LeafText(element);
      if element.nodeType == TextNode && Trim(element.nodeValue) != "" {
        textArray := textArray + [Trim(element.nodeValue)];
      }
    }
  }

  /** The loop of `traverseElementsToGetText` over the children, concatenating their texts. */
  method TraverseChildren(element: Dom) returns (textArray: seq<string>)
    ensures textArray == ChildTexts(element, |element.children|)
    decreases element, 1
  {
    textArray := [];
    var i := 0;
    while i < |element.children|
      invariant 0 <= i <= |element.children|
      invariant textArray == ChildTexts(element, i)
    {
      textArray := AppendChild(element, i, textArray);
      i := i + 1;
    }
  }

  /** One step of that loop: the texts of child `i` appended to those of the children before it. */
  method AppendChild(element: Dom, i: nat, textArray: seq<string>) returns (textArray': seq<string>)
    requires i < |element.children|
    requires textArray == ChildTexts(element, i)
    ensures textArray' == ChildTexts(element, i + 1)
    decreases element, 0
  {
    var t := TraverseElementsToGetText(element.children[i]);
    ChildTextsNext(element, i);
    textArray' := textArray + t;
  }

  /** One more child appends that child's texts. */
  lemma ChildTextsNext(n: Dom, i: nat)
    requires i < |n.children|
    ensures ChildTexts(n, i + 1) == ChildTexts(n, i) + Texts(n.children[i])
  {
  }

  /** A node with children collects exactly its children's texts. */
  lemma ChildTextsAll(n: Dom)
    requires |n.children| > 0
    ensures Texts(n) == ChildTexts(n, |n.children|)
  {
  }

  /** A collected text: non-empty, with no white space at either end. */
  predicate IsTrimmedText(t: string) {
    t != [] && !IsJsSpace(t[0]) && !IsJsSpace(t[|t| - 1])
  }

  /** Every collected text is non-empty and has no white space at either end. */
  predicate AllTrimmed(ts: seq<string>) {
    forall k | 0 <= k < |ts| :: IsTrimmedText(ts[k])
  }

  /** The number of childless text nodes under `n`: an upper bound on the texts collected. */
  function TextLeaves(n: Dom): nat
    decreases n, 1
  {
    if |n.children| > 0 then ChildTextLeaves(n, |n.children|) else if n.nodeType == TextNode then 1 else 0
  }

  function ChildTextLeaves(n: Dom, k: nat): nat
    requires k <= |n.children|
    decreases n, 0, k
  {
    if k == 0 then 0 else ChildTextLeaves(n, k - 1) + TextLeaves(n.children[k - 1])
  }

  lemma AllTrimmedAppend(a: seq<string>, b: seq<string>)
    requires AllTrimmed(a) && AllTrimmed(b)
    ensures AllTrimmed(a + b)
  {
    forall j | 0 <= j < |a + b|
      ensures IsTrimmedText((a + b)[j])
    {
      if j < |a| { assert (a + b)[j] == a[j]; } else { assert (a + b)[j] == b[j - |a|]; }
    }
  }

  /**
   * Texts are collected only from childless text nodes, at most one each, and every one is
   * non-empty and trimmed.
   */
  lemma TextsTrimmed(n: Dom)
    ensures AllTrimmed(Texts(n))
    ensures |Texts(n)| <= TextLeaves(n)
  {
    TextsAllTrimmed(n);
    TextsWithinLeaves(n);
  }

  lemma {:induction false} TextsAllTrimmed(n: Dom)
    ensures AllTrimmed(Texts(n))
    decreases n, 1
  {
    if |n.children| > 0 {
      ChildTextsAllTrimmed(n, |n.children|);
    } else {
      TrimEnds(n.nodeValue);
      assert Texts(n) == LeafText(n);
    }
  }

  lemma {:induction false} ChildTextsAllTrimmed(n: Dom, k: nat)
    requires k <= |n.children|
    ensures AllTrimmed(ChildTexts(n, k))
    decreases n, 0, k
  {
    if k > 0 {
      ChildTextsAllTrimmed(n, k - 1);
      TextsAllTrimmed(n.children[k - 1]);
      ChildTextsNext(n, k - 1);
      AllTrimmedAppend(ChildTexts(n, k - 1), Texts(n.children[k - 1]));
    }
  }

  lemma {:induction false} TextsWithinLeaves(n: Dom)
    ensures |Texts(n)| <= TextLeaves(n)
    decreases n, 1
  {
    if |n.children| > 0 {
      ChildTextsWithinLeaves(n, |n.children|);
    } else {
      assert Texts(n) == LeafText(n);
    }
  }

  lemma {:induction false} ChildTextsWithinLeaves(n: Dom, k: nat)
    requires k <= |n.children|
    ensures |ChildTexts(n, k)| <= ChildTextLeaves(n, k)
    decreases n, 0, k
  {
    if k > 0 {
      ChildTextsWithinLeaves(n, k - 1);
      TextsWithinLeaves(n.children[k - 1]);
      ChildTextsNext(n, k - 1);
    }
  }

}
