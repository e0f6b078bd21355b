/**
 * The scraper's record builders: one post and its preview comments per feed line
 * (`parseFirstLevelJson`, `parseSecondLevelJson`, `parseThirdLevelJson`, `formatTopLevelComments`)
 * and one full comment per edge of a comment-list response. Every path step is optional
 * chaining, so a missing node reads as undefined; the few places where the source calls a
 * method on a value of the wrong type (or reads through a missing `comment`) throw, and the
 * builder then gives `Throws`.
 */
module Records {
  import opened Wrappers
  import opened Text
  import opened Json
  import opened Email
  import opened Seqs

  /** `node?.comet_sections?.content?.story?.comet_sections?.context_layout?.story?.comet_sections?.actor_photo?.story?.actors?.[0]` */
  function ActorOf(node: Option<Json>): Option<Json> {
    var story := Prop(Prop(Prop(node, "comet_sections"), "content"), "story");
    var layout := Prop(Prop(Prop(story, "comet_sections"), "context_layout"), "story");
    var photo := Prop(Prop(Prop(layout, "comet_sections"), "actor_photo"), "story");
    First(Prop(photo, "actors"))
  }

  /** `node?.comet_sections?.content?.story?.comet_sections?.message_container?.story?.message?.text` */
  function MessageOf(node: Option<Json>): Option<Json> {
    var story := Prop(Prop(Prop(node, "comet_sections"), "content"), "story");
    var container := Prop(Prop(Prop(story, "comet_sections"), "message_container"), "story");
    Prop(Prop(container, "message"), "text")
  }

  /** `node?.comet_sections?.feedback?.story` */
  function FeedbackStoryOf(node: Option<Json>): Option<Json> {
    Prop(Prop(Prop(node, "comet_sections"), "feedback"), "story")
  }

  /** `node?.comet_sections?.feedback?.story?.post_id` */
  function PostIdOf(node: Option<Json>): Option<Json> {
    Prop(FeedbackStoryOf(node), "post_id")
  }

  /** `node?.comet_sections?.feedback?.story?.feedback_context?.interesting_top_level_comments` */
  function PreviewOf(node: Option<Json>): Option<Json> {
    Prop(Prop(FeedbackStoryOf(node), "feedback_context"), "interesting_top_level_comments")
  }

  /** `data?.data?.story_card?.post_id` */
  function CommentPostIdOf(data: Option<Json>): Option<Json> {
    Prop(Prop(Prop(data, "data"), "story_card"), "post_id")
  }

  /**
   * `data?.data?.feedback?.ufi_renderer?.feedback?.comment_list_renderer?.feedback
   * ?.comment_rendering_instance_for_feed_location?.comments?.edges`
   */
  function EdgesOf(data: Option<Json>): Option<Json> {
    var renderer := Prop(Prop(Prop(Prop(data, "data"), "feedback"), "ufi_renderer"), "feedback");
    var list := Prop(Prop(renderer, "comment_list_renderer"), "feedback");
    Prop(Prop(Prop(list, "comment_rendering_instance_for_feed_location"), "comments"), "edges")
  }

  const TimeStampLinkType: string := "XFBCommentTimeStampActionLink"

  /** One line of a feed page: the post and its preview comments. */
  datatype FeedItem = FeedItem(post: Record, topLevelComments: seq<Record>)

  /** Which of the three lines of a feed page a document came from. */
  datatype Level = FirstLevel | SecondLevel | ThirdLevel

  /** `name?.split(' ')?.[0]` and `name?.split(' ')?.[1]`; `.split` throws on a non-string. */
  function SplitName(name: Option<Json>): (r: Outcome<(Option<Json>, Option<Json>)>)
    ensures Nullish(name) ==> r == Returns((None, None))
    ensures r.Throws? <==> !Nullish(name) && !name.value.JStr?
  {
    if Nullish(name) then Returns((None, None))
    else if name.value.JStr? then
      var parts := Split(name.value.s, ' ');
      Returns((Some(JStr(parts[0])), if |parts| > 1 then Some(JStr(parts[1])) else None))
    else Throws
  }

  /**
   * The first name is the text before the first space and the last name the text between the
   * first and second spaces; there is a last name exactly when the name holds a space.
   */
  lemma SplitNameParts(name: string)
    ensures var (first, last) := SplitName(Some(JStr(name))).value;
      && first.Some? && first.value.JStr?
      && ' ' !in first.value.s
      && (last.None? <==> ' ' !in name)
      && (last.None? ==> first.value.s == name)
      && (last.Some? ==> last.value.JStr? && ' ' !in last.value.s
                          && StartsWith(name, first.value.s + " " + last.value.s))
  {
    var parts := Split(name, ' ');
    SplitJoin(name, ' ');
    SplitPartsFree(name, ' ');
    assert forall j | 0 <= j < |parts[0]| :: parts[0][j] != ' ';
    if |parts| == 1 {
      assert name == parts[0];
    } else {
      assert forall j | 0 <= j < |parts[1]| :: parts[1][j] != ' ';
      assert name == parts[0] + " " + Join(parts[1..], " ");
      if |parts| == 2 {
        assert name == parts[0] + " " + parts[1];
      } else {
        assert Join(parts[1..], " ") == parts[1] + " " + Join(parts[2..], " ");
        assert name == (parts[0] + " " + parts[1]) + (" " + Join(parts[2..], " "));
      }
      assert name[|parts[0]|] == ' ';
    }
  }

  /** One preview comment of a feed line (`formatTopLevelComments`' callback). */
  function PreviewComment(postId: Option<Json>, c: Json): (r: Outcome<Record>)
    ensures r.Returns? ==> Field(r.value, "id") == Field(r.value, "commentId")
    ensures r.Returns? ==> Field(r.value, "postId") == postId
    ensures r.Returns? ==> Field(r.value, "id") == Prop(Prop(Some(c), "comment"), "id")
    ensures r.Returns? ==> Field(r.value, "commentText")
                           == Some(OrEmpty(Prop(Prop(Prop(Some(c), "comment"), "body"), "text")))
  {
    // `c?.comment.body.text` stops at a nullish `c`, but reads `.body` of `c.comment`
    // and `.author` of it without `?.`, so a missing `comment`, `body` or `author` throws.
    var comment := Prop(Some(c), "comment");
    var body := Prop(comment, "body");
    var author := Prop(comment, "author");
    if !c.JNull? && (Nullish(comment) || Nullish(body) || Nullish(author)) then Throws
    else
      var text := Prop(body, "text");
      var name := Prop(author, "name");
      match (GetEmailFromText(text), SplitName(name))
      case (Returns(email), Returns((first, last))) =>
        Returns(PreviewRecord(postId, comment, author, text, name, email, first, last))
      case _ => Throws
  }

  /** The record of a preview comment. */
  function PreviewRecord(postId: Option<Json>, comment: Option<Json>, author: Option<Json>, text: Option<Json>,
                         name: Option<Json>, email: string, first: Option<Json>, last: Option<Json>): (r: Record)
    ensures Field(r, "id") == Field(r, "commentId") == Prop(comment, "id")
    ensures Field(r, "postId") == postId
    ensures Field(r, "commentText") == Some(OrEmpty(text))
  {
    map[
      "id" := Prop(comment, "id"),
      "commentId" := Prop(comment, "id"),
      "postId" := postId,
      "commentText" := Some(OrEmpty(text)),
      "commentAuthorName" := name,
      "commentAuthorId" := Prop(author, "id"),
      "email" := Some(JStr(email)),
      "firstName" := first,
      "lastName" := last]
  }

  /** `topLevelComments.map(...)`: all records, or the first exception. */
  function PreviewComments(postId: Option<Json>, cs: seq<Json>): (r: Outcome<seq<Record>>)
    ensures r.Returns? <==> forall k | 0 <= k < |cs| :: PreviewComment(postId, cs[k]).Returns?
    ensures r.Returns? ==> |r.value| == |cs|
    ensures r.Returns? ==> forall k | 0 <= k < |cs| :: PreviewComment(postId, cs[k]) == Returns(r.value[k])
  {
    var build := (c: Json) => PreviewComment(postId, c);
    MapOutcomeAt(build, cs);
    MapOutcome(build, cs)
  }

  /**
   * `formatTopLevelComments(postId, list = [])`: undefined gives no comments; `.map` throws on
   * anything but an array (null included).
   */
  function FormatTopLevelComments(postId: Option<Json>, list: Option<Json>): (r: Outcome<seq<Record>>)
    ensures list.None? ==> r == Returns([])
    ensures list.Some? && !list.value.JArr? ==> r.Throws?
    ensures r.Returns? && list.Some? ==> |r.value| == |list.value.items|
    ensures r.Returns? ==> forall k | 0 <= k < |r.value| ::
      Field(r.value[k], "postId") == postId && Field(r.value[k], "id") == Field(r.value[k], "commentId")
  {
    match list
    case None => Returns([])
    case Some(JArr(cs)) => PreviewComments(postId, cs)
    case Some(_) => Throws
  }

  /** The post record of a feed line. */
  function PostRecord(postId: Option<Json>, postText: Option<Json>, actor: Option<Json>, email: string,
                      first: Option<Json>, last: Option<Json>): (r: Record)
    ensures Field(r, "id") == Field(r, "postId") == postId
    ensures Field(r, "postText") == Some(OrEmpty(postText))
    ensures Field(r, "email") == Some(JStr(email))
  {
    map[
      "id" := postId,
      "postId" := postId,
      "postText" := Some(OrEmpty(postText)),
      "postAuthor" := Prop(actor, "name"),
      "postAuthorId" := Prop(actor, "id"),
      "postAuthorUrl" := Prop(actor, "url"),
      "email" := Some(JStr(email)),
      "firstName" := first,
      "lastName" := last]
  }

  /**
   * The decoder shared by the three feed-line shapes, given the values read from the story
   * node: the post carries its own post id as `id`, its text defaults to `''`, its email is a
   * string, and every preview comment carries the post's id.
   */
  function DecodeStory(actor: Option<Json>, postText: Option<Json>, postId: Option<Json>,
                       preview: Option<Json>): (r: Outcome<FeedItem>)
    ensures r.Returns? ==>
      var post := r.value.post;
      && Field(post, "id") == Field(post, "postId") == postId
      && Field(post, "postText").Some?
      && (Falsy(postText) ==> Field(post, "postText") == Some(JStr("")))
      && Field(post, "email").Some? && Field(post, "email").value.JStr?
      && (forall k | 0 <= k < |r.value.topLevelComments| ::
            Field(r.value.topLevelComments[k], "postId") == postId)
  {
    match (GetEmailFromText(postText), SplitName(Prop(actor, "name")), FormatTopLevelComments(postId, preview))
    case (Returns(email), Returns((first, last)), Returns(comments)) =>
      Returns(FeedItem(PostRecord(postId, postText, actor, email, first, last), comments))
    case _ => Throws
  }

  /** The story node: under `data.node.group_feed.edges[0].node` on the first line, `data.node` on the others. */
  function StoryNode(json: Json, level: Level): Option<Json> {
    var node := Prop(Prop(Some(json), "data"), "node");
    if level == FirstLevel then Prop(First(Prop(Prop(node, "group_feed"), "edges")), "node")
    else node
  }

  /** `parseFirstLevelJson`, `parseSecondLevelJson`, `parseThirdLevelJson`. */
  function ParseLevelJson(json: Json, level: Level): Outcome<FeedItem> {
    var node := StoryNode(json, level);
    DecodeStory(ActorOf(node), MessageOf(node), PostIdOf(node), PreviewOf(node))
  }

  /** The email of a post is `''` or an email-shaped substring of its text. */
  lemma PostEmailFromText(actor: Option<Json>, postText: Option<Json>, postId: Option<Json>,
                          preview: Option<Json>)
    requires DecodeStory(actor, postText, postId, preview).Returns?
    ensures var e := Field(DecodeStory(actor, postText, postId, preview).value.post, "email").value.s;
      e == "" || (postText.Some? && postText.value.JStr? && IsEmail(e) && Count(e, '@') == 1)
  {
    GetEmailFromTextSpec(postText);
  }

  // ---------------------------------------------------------------------------------------------
  // The comment-list response.

  predicate IsTimeStampLink(f: Json) {
    Prop(Some(f), "__typename") == Some(JStr(TimeStampLinkType))
  }

  /** `links.find(f => f?.__typename === 'XFBCommentTimeStampActionLink')`, as an index. */
  function FindTimeStampLink(links: seq<Json>): (r: Option<nat>)
    ensures r.Some? ==> r.value < |links| && IsTimeStampLink(links[r.value])
    ensures r.Some? ==> forall k | 0 <= k < r.value :: !IsTimeStampLink(links[k])
    ensures r.None? ==> forall k | 0 <= k < |links| :: !IsTimeStampLink(links[k])
  {
    if links == [] then None
    else if IsTimeStampLink(links[0]) then Some(0)
    else match FindTimeStampLink(links[1..])
      case Some(k) => Some(k + 1)
      case None => None
  }

  /** `comment?.comment_action_links?.find(...)?.comment`; `.find` throws on a non-array. */
  function TimeStuff(links: Option<Json>): (r: Outcome<Option<Json>>)
    ensures r.Throws? <==> !Nullish(links) && !links.value.JArr?
  {
    if Nullish(links) then Returns(None)
    else if links.value.JArr? then
      match FindTimeStampLink(links.value.items)
      case Some(k) => Returns(Prop(Some(links.value.items[k]), "comment"))
      case None => Returns(None)
    else Throws
  }

  /** One full comment from an edge of the comment list. */
  function CommentFromEdge(postId: Option<Json>, edge: Json): (r: Outcome<Record>)
    ensures r.Returns? ==> Field(r.value, "id") == Field(r.value, "commentId")
    ensures r.Returns? ==> Field(r.value, "postId") == postId
  {
    var comment := Prop(Some(edge), "node");
    var text := Prop(Prop(comment, "body"), "text");
    var author := Prop(comment, "author");
    var name := Prop(author, "name");
    match (TimeStuff(Prop(comment, "comment_action_links")), GetEmailFromText(text), SplitName(name))
    case (Returns(ts), Returns(email), Returns((first, last))) =>
      Returns(CommentRecord(postId, comment, author, text, name, ts, email, first, last))
    case _ => Throws
  }

  /** The record of a full comment. */
  function CommentRecord(postId: Option<Json>, comment: Option<Json>, author: Option<Json>, text: Option<Json>,
                         name: Option<Json>, ts: Option<Json>, email: string, first: Option<Json>,
                         last: Option<Json>): (r: Record)
    ensures Field(r, "id") == Field(r, "commentId") == Prop(comment, "id")
    ensures Field(r, "postId") == postId
    ensures Field(r, "timestamp") == Prop(ts, "created_time") && Field(r, "commentUrl") == Prop(ts, "url")
  {
    map[
      "id" := Prop(comment, "id"),
      "commentId" := Prop(comment, "id"),
      "postId" := postId,
      "commentText" := text,
      "commentAuthorName" := name,
      "commentAuthorId" := Prop(author, "id"),
      "commentAuthorUrl" := Prop(author, "url"),
      "timestamp" := Prop(ts, "created_time"),
      "commentUrl" := Prop(ts, "url"),
      "email" := Some(JStr(email)),
      "firstName" := first,
      "lastName" := last]
  }

  /**
   * Building a full comment throws exactly when the action links are neither nullish nor an
   * array, or the body text or the author name is neither nullish nor a string.
   */
  lemma CommentFromEdgeThrows(postId: Option<Json>, edge: Json)
    ensures var comment := Prop(Some(edge), "node");
      var links := Prop(comment, "comment_action_links");
      var text := Prop(Prop(comment, "body"), "text");
      var name := Prop(Prop(comment, "author"), "name");
      CommentFromEdge(postId, edge).Throws? <==>
        (!Nullish(links) && !links.value.JArr?) || (!Nullish(text) && !text.value.JStr?)
        || (!Nullish(name) && !name.value.JStr?)
  {
  }

  /**
   * A comment's timestamp and url come from the first action link typed
   * `XFBCommentTimeStampActionLink`, whatever links come before it.
   */
  lemma TimestampFromTypedLink(postId: Option<Json>, edge: Json)
    requires CommentFromEdge(postId, edge).Returns?
    ensures var comment := Prop(Some(edge), "node");
      var links := Prop(comment, "comment_action_links");
      var r := CommentFromEdge(postId, edge).value;
      if links.Some? && links.value.JArr? && FindTimeStampLink(links.value.items).Some? then
        var link := links.value.items[FindTimeStampLink(links.value.items).value];
        && IsTimeStampLink(link)
        && Field(r, "timestamp") == Prop(Prop(Some(link), "comment"), "created_time")
        && Field(r, "commentUrl") == Prop(Prop(Some(link), "comment"), "url")
      else Field(r, "timestamp").None? && Field(r, "commentUrl").None?
  {
  }

  /**
   * `edges.map(...)`: one comment per edge, in order; it throws exactly when building some
   * edge's comment throws.
   */
  function CommentsFromEdges(postId: Option<Json>, edges: seq<Json>): (r: Outcome<seq<Record>>)
    ensures r.Returns? <==> forall k | 0 <= k < |edges| :: CommentFromEdge(postId, edges[k]).Returns?
    ensures r.Returns? ==> |r.value| == |edges|
    ensures r.Returns? ==> forall k | 0 <= k < |edges| :: CommentFromEdge(postId, edges[k]) == Returns(r.value[k])
  {
    var build := (edge: Json) => CommentFromEdge(postId, edge);
    MapOutcomeAt(build, edges);
    MapOutcome(build, edges)
  }

  /**
   * The comments of a comment-list document: `None` when the edge list is nullish (the
   * source's `undefined`), `Throws` when building a comment throws or the edges are not an
   * array. Every comment carries the document's post id and its own id as `id`.
   */
  function CommentList(data: Option<Json>): (r: Outcome<Option<seq<Record>>>)
    ensures data.None? ==> r == Returns(None)
    ensures r.Returns? && r.value.Some? ==> forall k | 0 <= k < |r.value.value| ::
      && Field(r.value.value[k], "postId") == CommentPostIdOf(data)
      && Field(r.value.value[k], "id") == Field(r.value.value[k], "commentId")
  {
    var postId := CommentPostIdOf(data);
    var edges := EdgesOf(data);
    if Nullish(edges) then Returns(None)
    else if edges.value.JArr? then
      match CommentsFromEdges(postId, edges.value.items)
      case Returns(cs) => Returns(Some(cs))
      case Throws => Throws
    else Throws
  }
}
