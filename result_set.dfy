/**
 * The scraper's accumulated results (`allContent`): posts are appended as they arrive, comments
 * only when no entry already present carries a strictly equal `commentId`
 * (`addCommentsToAllContent`), and the XHR `load` handler routes a response to one of the two
 * by the request body.
 */
module ResultSet {
  import opened Wrappers
  import opened Text
  import opened Json
  import opened Records

  const FeedQuery: string := "GroupsCometFeedRegularStoriesPaginationQuery"
  const CommentsQuery: string := "CometFocusedStoryViewUFIQuery"

  /** The id an entry is deduplicated by; posts have none, which reads as `undefined`. */
  function IdOf(r: Record): Option<Json> {
    Field(r, "commentId")
  }

  /** `allContent.find((f) => f.commentId === c.commentId)` finds something. */
  predicate Has(content: seq<Record>, c: Record) {
    exists k | 0 <= k < |content| :: StrictEquals(IdOf(content[k]), IdOf(c))
  }

  /** `addCommentsToAllContent(cs)`, one candidate at a time from the left. */
  function Merge(content: seq<Record>, cs: seq<Record>): seq<Record>
    decreases |cs|
  {
    if cs == [] then content
    else Merge(if Has(content, cs[0]) then content else content + [cs[0]], cs[1..])
  }

  lemma HasExtends(content: seq<Record>, more: seq<Record>, c: Record)
    requires Has(content, c)
    ensures Has(content + more, c)
  {
    var k :| 0 <= k < |content| && StrictEquals(IdOf(content[k]), IdOf(c));
    assert (content + more)[k] == content[k];
  }

  /**
   * Merging keeps what was there, in place, and appends only candidates, at most one entry per
   * candidate; `MergeFirstSeen` says exactly which, and in what order.
   */
  lemma {:induction false} MergeExtends(content: seq<Record>, cs: seq<Record>)
    ensures var r := Merge(content, cs);
      && |content| <= |r| <= |content| + |cs|
      && r[..|content|] == content
      && forall i | |content| <= i < |r| :: r[i] in cs
    decreases |cs|
  {
    if cs != [] {
      var next := if Has(content, cs[0]) then content else content + [cs[0]];
      MergeExtends(next, cs[1..]);
      var r := Merge(content, cs);
      assert r[..|content|] == next[..|next|][..|content|];
      forall i | |content| <= i < |r| ensures r[i] in cs {
        if i >= |next| {
          assert r[i] in cs[1..];
        } else {
          assert r[i] == cs[0];
        }
      }
    }
  }

  /**
   * No two entries that merging appends carry strictly equal ids, and none of them carries an id
   * strictly equal to one already there.
   */
  lemma {:induction false} MergeAppendsFreshIds(content: seq<Record>, cs: seq<Record>)
    ensures var r := Merge(content, cs);
      forall i, j | 0 <= j < i < |r| && |content| <= i :: !StrictEquals(IdOf(r[j]), IdOf(r[i]))
    decreases |cs|
  {
    if cs != [] {
      var next := if Has(content, cs[0]) then content else content + [cs[0]];
      MergeAppendsFreshIds(next, cs[1..]);
      MergeExtends(next, cs[1..]);
      var r := Merge(content, cs);
      forall i, j | 0 <= j < i < |r| && |content| <= i ensures !StrictEquals(IdOf(r[j]), IdOf(r[i])) {
        if i < |next| {
          assert i == |content| && r[i] == cs[0] && !Has(content, cs[0]);
          assert r[j] == content[j];
        }
      }
    }
  }

  /** Once an entry has a strictly equal id in the content, merging more never drops that. */
  lemma {:induction false} MergeKeeps(content: seq<Record>, cs: seq<Record>, c: Record)
    requires Has(content, c)
    ensures Has(Merge(content, cs), c)
    decreases |cs|
  {
    MergeExtends(content, cs);
    var r := Merge(content, cs);
    HasExtends(content, r[|content|..], c);
    assert content + r[|content|..] == r;
  }

  /**
   * After merging, every candidate whose id is a primitive (or undefined) has an entry with that
   * id; a candidate whose id is an array or object never compares equal, even to itself.
   */
  lemma {:induction false} MergeCovers(content: seq<Record>, cs: seq<Record>)
    requires forall k | 0 <= k < |cs| :: Primitive(IdOf(cs[k]))
    ensures forall k | 0 <= k < |cs| :: Has(Merge(content, cs), cs[k])
    decreases |cs|
  {
    if cs != [] {
      var next := if Has(content, cs[0]) then content else content + [cs[0]];
      MergeCovers(next, cs[1..]);
      assert Has(next, cs[0]) by {
        if !Has(content, cs[0]) {
          StrictEqualsIsValueEquality(IdOf(cs[0]), IdOf(cs[0]));
          assert next[|content|] == cs[0];
        }
      }
      MergeKeeps(next, cs[1..], cs[0]);
      forall k | 1 <= k < |cs| ensures Has(Merge(content, cs), cs[k]) {
        assert cs[k] == cs[1..][k - 1];
      }
    }
  }

  /** Candidates that all have an entry already change nothing. */
  lemma {:induction false} MergePresent(content: seq<Record>, cs: seq<Record>)
    requires forall k | 0 <= k < |cs| :: Has(content, cs[k])
    ensures Merge(content, cs) == content
    decreases |cs|
  {
    if cs != [] {
      assert Has(content, cs[0]);
      forall k | 0 <= k < |cs[1..]| ensures Has(content, cs[1..][k]) {
        assert cs[1..][k] == cs[k + 1];
      }
      MergePresent(content, cs[1..]);
    }
  }

  /** Merging the same comments twice is merging them once, when their ids are primitives. */
  lemma MergeIdempotent(content: seq<Record>, cs: seq<Record>)
    requires forall k | 0 <= k < |cs| :: Primitive(IdOf(cs[k]))
    ensures Merge(Merge(content, cs), cs) == Merge(content, cs)
  {
    MergeCovers(content, cs);
    MergePresent(Merge(content, cs), cs);
  }

  /**
   * Posts have no `commentId`, so once a post is present a comment without an id compares equal
   * to it (`undefined === undefined`) and is never added.
   */
  lemma MergeSkipsUndefinedIds(content: seq<Record>, p: nat, c: Record)
    requires p < |content| && IdOf(content[p]).None? && IdOf(c).None?
    ensures Merge(content, [c]) == content
  {
    assert StrictEquals(IdOf(content[p]), IdOf(c));
  }

  /**
   * Candidate `i` is appended by merging: no entry of `content` carries its id, and neither does
   * any earlier candidate, so the first candidate with a given id is the one kept.
   */
  predicate FirstFresh(content: seq<Record>, cs: seq<Record>, i: nat)
    requires i < |cs|
  {
    !Has(content, cs[i]) && forall j | 0 <= j < i :: !StrictEquals(IdOf(cs[j]), IdOf(cs[i]))
  }

  /** The candidates from `i` on that are first with their id and new to `content`, in order. */
  function FirstSeen(content: seq<Record>, cs: seq<Record>, i: nat): seq<Record>
    requires i <= |cs|
    decreases |cs| - i
  {
    if i == |cs| then []
    else (if FirstFresh(content, cs, i) then [cs[i]] else []) + FirstSeen(content, cs, i + 1)
  }

  lemma StrictEqualsTransitive(a: Option<Json>, b: Option<Json>, c: Option<Json>)
    requires StrictEquals(a, b) && StrictEquals(b, c)
    ensures StrictEquals(a, c)
  {
  }

  /** After the first candidate is handled, an id is present iff it was, or it is that candidate's. */
  lemma HasNext(content: seq<Record>, c: Record, x: Record)
    ensures var next := if Has(content, c) then content else content + [c];
      Has(next, x) <==> Has(content, x) || (!Has(content, c) && StrictEquals(IdOf(c), IdOf(x)))
  {
    var next := if Has(content, c) then content else content + [c];
    if Has(content, x) {
      var k :| 0 <= k < |content| && StrictEquals(IdOf(content[k]), IdOf(x));
      assert next[k] == content[k];
    }
    if Has(next, x) {
      var k :| 0 <= k < |next| && StrictEquals(IdOf(next[k]), IdOf(x));
      if k < |content| {
        assert next[k] == content[k];
      }
    }
    if !Has(content, c) {
      assert next[|content|] == c;
    }
  }

  /**
   * Handling the first candidate, whichever way, leaves the freshness of every later candidate
   * unchanged: an id shared with the first candidate is already in `content` or is added with it.
   */
  lemma FirstFreshShift(content: seq<Record>, cs: seq<Record>, i: nat)
    requires 1 <= i < |cs|
    ensures var next := if Has(content, cs[0]) then content else content + [cs[0]];
      FirstFresh(next, cs[1..], i - 1) <==> FirstFresh(content, cs, i)
  {
    HasNext(content, cs[0], cs[i]);
    if Has(content, cs[0]) && StrictEquals(IdOf(cs[0]), IdOf(cs[i])) {
      var k :| 0 <= k < |content| && StrictEquals(IdOf(content[k]), IdOf(cs[0]));
      StrictEqualsTransitive(IdOf(content[k]), IdOf(cs[0]), IdOf(cs[i]));
    }
    assert cs[1..][i - 1] == cs[i];
    forall j | 0 <= j < i - 1 ensures cs[1..][j] == cs[j + 1] {
    }
  }

  lemma {:induction false} FirstSeenShift(content: seq<Record>, cs: seq<Record>, i: nat)
    requires 1 <= i <= |cs|
    ensures var next := if Has(content, cs[0]) then content else content + [cs[0]];
      FirstSeen(next, cs[1..], i - 1) == FirstSeen(content, cs, i)
    decreases |cs| - i
  {
    if i < |cs| {
      FirstFreshShift(content, cs, i);
      FirstSeenShift(content, cs, i + 1);
      assert cs[1..][i - 1] == cs[i];
    }
  }

  /**
   * Merging appends exactly the candidates that are first with their id and new to the contents,
   * in candidate order: the first candidate with an id wins, and later ones with that id are
   * dropped.
   */
  lemma {:induction false} MergeFirstSeen(content: seq<Record>, cs: seq<Record>)
    ensures Merge(content, cs) == content + FirstSeen(content, cs, 0)
    decreases |cs|
  {
    if cs != [] {
      var next := if Has(content, cs[0]) then content else content + [cs[0]];
      MergeFirstSeen(next, cs[1..]);
      FirstSeenShift(content, cs, 1);
      assert content + FirstSeen(content, cs, 0) == next + FirstSeen(content, cs, 1);
    }
  }

  // ---------------------------------------------------------------------------------------------
  // The load handler.

  /**
   * `JSON.parse(lines[k])` followed by the parser for line `k`; a missing line parses
   * `undefined`, which throws like malformed text.
   */
  function ReadLine(lines: seq<string>, k: nat, level: Level, parse: string -> Option<Json>): Outcome<FeedItem> {
    if k < |lines| && parse(lines[k]).Some? then ParseLevelJson(parse(lines[k]).value, level)
    else Throws
  }

  /** All three lines decoded, or the first exception. */
  function AllThree(a: Outcome<FeedItem>, b: Outcome<FeedItem>, c: Outcome<FeedItem>): (r: Outcome<seq<FeedItem>>)
    ensures r.Returns? <==> a.Returns? && b.Returns? && c.Returns?
    ensures r.Returns? ==> r.value == [a.value, b.value, c.value]
  {
    if a.Returns? && b.Returns? && c.Returns? then Returns([a.value, b.value, c.value]) else Throws
  }

  /** The three items of a feed page, or the exception that aborts the handler before any push. */
  function FeedPage(response: string, parse: string -> Option<Json>): (r: Outcome<seq<FeedItem>>)
    ensures r.Returns? ==> |r.value| == 3
    ensures |Split(response, '\n')| < 3 ==> r.Throws?
  {
    FeedLines(Split(response, '\n'), parse)
  }

  /** The first three lines of a feed page decoded, one per level, or the first exception. */
  function FeedLines(lines: seq<string>, parse: string -> Option<Json>): (r: Outcome<seq<FeedItem>>)
    ensures r.Returns? ==> |r.value| == 3
    ensures |lines| < 3 ==> r.Throws?
  {
    AllThree(ReadLine(lines, 0, FirstLevel, parse), ReadLine(lines, 1, SecondLevel, parse),
             ReadLine(lines, 2, ThirdLevel, parse))
  }

  /** Each item's post is pushed, then its preview comments merged. */
  function ApplyItems(content: seq<Record>, items: seq<FeedItem>): seq<Record>
    decreases |items|
  {
    if items == [] then content
    else ApplyItems(Merge(content + [items[0].post], items[0].topLevelComments), items[1..])
  }

  /** The `load` handler's effect on the results, a thrown exception leaving them as they were. */
  function HandleLoad(body: Option<string>, response: string, parse: string -> Option<Json>,
                      content: seq<Record>): seq<Record>
  {
    if body.Some? && Contains(body.value, FeedQuery) then
      match FeedPage(response, parse)
      case Returns(items) => ApplyItems(content, items)
      case Throws => content
    else if body.Some? && Contains(body.value, CommentsQuery) then
      match CommentList(parse(response))
      case Returns(cs) => Merge(content, cs.GetOr([]))
      case Throws => content
    else content
  }

  /** Applying items is applying the first, then the others. */
  lemma ApplyItemsFirst(content: seq<Record>, items: seq<FeedItem>)
    requires items != []
    ensures ApplyItems(content, items) == ApplyItems(ApplyItems(content, [items[0]]), items[1..])
  {
    assert [items[0]][1..] == [];
  }

  /** Applying feed items keeps the earlier results and pushes every post, duplicate or not. */
  lemma {:induction false} ApplyItemsGrows(content: seq<Record>, items: seq<FeedItem>)
    ensures var r := ApplyItems(content, items);
      |r| >= |content| + |items| && r[..|content|] == content
    decreases |items|
  {
    if items != [] {
      var next := Merge(content + [items[0].post], items[0].topLevelComments);
      MergeExtends(content + [items[0].post], items[0].topLevelComments);
      ApplyItemsGrows(next, items[1..]);
      var r := ApplyItems(content, items);
      assert r[..|content|] == next[..|content| + 1][..|content|];
    }
  }

  /**
   * A response to any request is only ever appended to the results; the earlier entries stay
   * where they were.
   */
  lemma HandleLoadAppends(body: Option<string>, response: string, parse: string -> Option<Json>,
                          content: seq<Record>)
    ensures var r := HandleLoad(body, response, parse, content);
      |r| >= |content| && r[..|content|] == content
  {
    if body.Some? && Contains(body.value, FeedQuery) {
      if FeedPage(response, parse).Returns? {
        ApplyItemsGrows(content, FeedPage(response, parse).value);
      }
    } else if body.Some? && Contains(body.value, CommentsQuery) {
      var cl := CommentList(parse(response));
      if cl.Returns? {
        MergeExtends(content, cl.value.GetOr([]));
      }
    }
  }

  /**
   * Posts are not deduplicated: a feed page that parses adds three posts each time it is
   * handled, so handling it twice adds at least six entries.
   */
  lemma FeedPageTwice(body: string, response: string, parse: string -> Option<Json>, content: seq<Record>)
    requires Contains(body, FeedQuery) && FeedPage(response, parse).Returns?
    ensures |HandleLoad(Some(body), response, parse, HandleLoad(Some(body), response, parse, content))|
            >= |content| + 6
  {
    var items := FeedPage(response, parse).value;
    ApplyItemsGrows(content, items);
    ApplyItemsGrows(ApplyItems(content, items), items);
  }

  /** A feed page with a missing or malformed line, or a decoder that throws, changes nothing. */
  lemma FeedFailureNoChange(body: string, response: string, parse: string -> Option<Json>, content: seq<Record>, k: nat)
    requires Contains(body, FeedQuery) && k < 3
    requires k >= |Split(response, '\n')| || parse(Split(response, '\n')[k]).None?
    ensures HandleLoad(Some(body), response, parse, content) == content
  {
    FeedLineUnparsed(Split(response, '\n'), parse, k);
  }

  /** One of the three lines missing or not JSON makes the page throw. */
  lemma FeedLineUnparsed(lines: seq<string>, parse: string -> Option<Json>, k: nat)
    requires k < 3
    requires k >= |lines| || parse(lines[k]).None?
    ensures FeedLines(lines, parse).Throws?
  {
    if k == 0 {
      ReadLineUnparsed(lines, 0, FirstLevel, parse);
    } else if k == 1 {
      ReadLineUnparsed(lines, 1, SecondLevel, parse);
    } else {
      ReadLineUnparsed(lines, 2, ThirdLevel, parse);
    }
  }

  /** A missing line, or one that is not JSON, throws whatever its level. */
  lemma ReadLineUnparsed(lines: seq<string>, k: nat, level: Level, parse: string -> Option<Json>)
    requires k >= |lines| || parse(lines[k]).None?
    ensures ReadLine(lines, k, level, parse) == Throws
  {
  }

  /** A comment response that is not JSON leaves the results as they were. */
  lemma CommentsUnparsedNoChange(body: string, response: string, parse: string -> Option<Json>, content: seq<Record>)
    requires !Contains(body, FeedQuery) && Contains(body, CommentsQuery) && parse(response).None?
    ensures HandleLoad(Some(body), response, parse, content) == content
  {
  }

  /** The results held by the page script. */
  class Results {
    var allContent: seq<Record>

    constructor()
      ensures allContent == []
    {
      allContent := [];
    }

    /** `allContent?.find((f) => f.commentId === c.commentId)`, as whether it finds an entry. */
    method Find(c: Record) returns (found: bool)
      ensures found == Has(allContent, c)
    {
      var k := 0;
      while k < |allContent|
        invariant 0 <= k <= |allContent|
        invariant forall j | 0 <= j < k :: !StrictEquals(IdOf(allContent[j]), IdOf(c))
      {
        if StrictEquals(IdOf(allContent[k]), IdOf(c)) {
          return true;
        }
        k := k + 1;
      }
      return false;
    }

    /** `addCommentsToAllContent(comments = [])`. */
    method AddCommentsToAllContent(comments: Option<seq<Record>>)
      modifies this
      ensures allContent == Merge(old(allContent), comments.GetOr([]))
    {
      var cs := comments.GetOr([]);
      var k := 0;
      while k < |cs|
        invariant 0 <= k <= |cs|
        invariant Merge(old(allContent), cs) == Merge(allContent, cs[k..])
      {
        assert cs[k..][1..] == cs[k + 1..];
        var found := Find(cs[k]);
        if !found {
          allContent := allContent + [cs[k]];
        }
        k := k + 1;
      }
    }

    /** `allContent.push(item.post)` and `addCommentsToAllContent(item.topLevelComments)`. */
    method PushItem(item: FeedItem)
      modifies this
      ensures allContent == ApplyItems(old(allContent), [item])
    {
      allContent := allContent + [item.post];
      AddCommentsToAllContent(Some(item.topLevelComments));
      assert [item][1..] == [];
    }

    /** The `load` listener for one intercepted GraphQL request. */
    method OnLoad(body: Option<string>, response: string, parse: string -> Option<Json>)
      modifies this
      ensures allContent == HandleLoad(body, response, parse, old(allContent))
    {
      if body.Some? && Contains(body.value, FeedQuery) {
        var page := FeedPage(response, parse);
        if page.Returns? {
          var items := page.value;
          ghost var start := allContent;
          PushItem(items[0]);
          ghost var afterFirst := allContent;
          PushItem(items[1]);
          ghost var afterSecond := allContent;
          PushItem(items[2]);
          ApplyItemsFirst(start, items);
          ApplyItemsFirst(afterFirst, items[1..]);
          ApplyItemsFirst(afterSecond, items[1..][1..]);
          assert items[1..][1..][1..] == [];
        }
      } else if body.Some? && Contains(body.value, CommentsQuery) {
        var comments := CommentList(parse(response));
        if comments.Returns? {
          AddCommentsToAllContent(comments.value);
        }
      }
    }
  }
}
