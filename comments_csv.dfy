/**
 * The Facebook-export converter: each CSV row becomes an entry (`process_row`), with its links
 * cleaned of tracking suffixes (`clean_url`) and its media classified (`extract_media_links`);
 * `main` then attaches comment entries to the most recent post.
 */
module CommentsCsv {
  import opened Wrappers
  import opened Text
  import opened Seqs

  // ---------------------------------------------------------------------------------------------
  // clean_url

  /** The start of the tracking suffix `re.sub(r'&__cft__\[.*', '', url)` removes. */
  const Marker: string := "&__cft__["

  /** Index of the first line break in `s`, or `|s|`: where `.*` stops. */
  function LineEnd(s: string): (r: nat)
    ensures r <= |s| && (r == |s| || s[r] == '\n')
    ensures forall k | 0 <= k < r :: s[k] != '\n'
  {
    if s == [] || s[0] == '\n' then 0 else 1 + LineEnd(s[1..])
  }

  /** `re.sub(r'&__cft__\[.*', '', s)`: every marker is removed with the rest of its line. */
  function StripTracking(s: string): string
    decreases |s|
  {
    if s == [] then []
    else if StartsWith(s, Marker) then
      MarkerLineEnd(s);
      StripTracking(s[LineEnd(s)..])
    else [s[0]] + StripTracking(s[1..])
  }

  /** A marker lies within its own line. */
  lemma MarkerLineEnd(s: string)
    requires StartsWith(s, Marker)
    ensures LineEnd(s) >= |Marker|
  {
    assert forall k | 0 <= k < |Marker| :: s[k] == Marker[k];
  }

  /** `clean_url(url)`: an empty url is returned as it is. */
  function CleanUrl(url: string): string {
    if url == "" then url else StripTracking(url)
  }

  /** What remains of `s` starts with a line break, or `s` itself starts with what remains. */
  lemma {:induction false} StripTrackingPrefix(s: string, p: string)
    requires forall k | 0 <= k < |p| :: p[k] != '\n'
    requires StartsWith(StripTracking(s), p)
    ensures StartsWith(s, p)
    decreases |s|
  {
    if s != [] && p != [] {
      if StartsWith(s, Marker) {
        StripTrackingAtMarker(s);
        assert false;
      } else {
        var rest := StripTracking(s[1..]);
        assert StripTracking(s) == [s[0]] + rest;
        assert StartsWith(rest, p[1..]) by {
          assert rest[..|p| - 1] == StripTracking(s)[1..|p|];
        }
        StripTrackingPrefix(s[1..], p[1..]);
        assert s[..|p|] == [s[0]] + s[1..][..|p| - 1];
      }
    }
  }

  /** After a marker, what remains starts at the next line break. */
  lemma StripTrackingAtMarker(s: string)
    requires StartsWith(s, Marker)
    ensures StripTracking(s) == [] || StripTracking(s)[0] == '\n'
  {
    MarkerLineEnd(s);
    var t := s[LineEnd(s)..];
    if t != [] {
      assert !StartsWith(t, Marker);
    }
  }

  /** A character kept in front of cleaned text cannot complete a marker the input lacked. */
  lemma KeptCharNoMarker(s: string)
    requires s != [] && StartsWith([s[0]] + StripTracking(s[1..]), Marker)
    ensures StartsWith(s, Marker)
  {
    var rest := StripTracking(s[1..]);
    var r := [s[0]] + rest;
    assert StartsWith(rest, Marker[1..]) by {
      assert rest[..|Marker| - 1] == r[1..|Marker|];
    }
    StripTrackingPrefix(s[1..], Marker[1..]);
    assert s[..|Marker|] == [s[0]] + s[1..][..|Marker| - 1];
  }

  /** No tracking marker survives cleaning, whatever the input. */
  lemma {:induction false} CleanUrlHasNoMarker(s: string)
    ensures !Contains(StripTracking(s), Marker)
    decreases |s|
  {
    if s != [] {
      if StartsWith(s, Marker) {
        MarkerLineEnd(s);
        CleanUrlHasNoMarker(s[LineEnd(s)..]);
      } else {
        var rest := StripTracking(s[1..]);
        CleanUrlHasNoMarker(s[1..]);
        var r := [s[0]] + rest;
        assert r[1..] == rest;
        if StartsWith(r, Marker) {
          KeptCharNoMarker(s);
          assert false;
        }
      }
    }
  }

  /** Text without a marker is left as it is. */
  lemma {:induction false} StripTrackingUnmarked(s: string)
    requires !Contains(s, Marker)
    ensures StripTracking(s) == s
    decreases |s|
  {
    if s != [] {
      StripTrackingUnmarked(s[1..]);
    }
  }

  /** Cleaning a url twice is cleaning it once. */
  lemma CleanUrlIdempotent(url: string)
    ensures CleanUrl(CleanUrl(url)) == CleanUrl(url)
  {
    if url != "" {
      CleanUrlHasNoMarker(url);
      StripTrackingUnmarked(StripTracking(url));
    }
  }

  /** Index of the first marker in `s`, or `|s|` when there is none. */
  function FirstMarker(s: string): (r: nat)
    ensures r <= |s| && (r == |s| || StartsWith(s[r..], Marker))
    ensures forall j | 0 <= j < r :: !StartsWith(s[j..], Marker)
    decreases |s|
  {
    if s == [] || StartsWith(s, Marker) then 0
    else
      var r := 1 + FirstMarker(s[1..]);
      assert forall j | 1 <= j < r :: s[j..] == s[1..][j - 1..];
      r
  }

  /** On a single line, cleaning keeps exactly the text before the first marker. */
  lemma {:induction false} CleanSingleLine(s: string)
    requires '\n' !in s
    ensures StripTracking(s) == s[..FirstMarker(s)]
    decreases |s|
  {
    if s != [] {
      if StartsWith(s, Marker) {
        MarkerLineEnd(s);
        assert LineEnd(s) == |s|;
      } else {
        assert '\n' !in s[1..];
        CleanSingleLine(s[1..]);
        assert s[..FirstMarker(s)] == [s[0]] + s[1..][..FirstMarker(s[1..])];
      }
    }
  }

  // ---------------------------------------------------------------------------------------------
  // url_pattern = re.compile(r'https?://\S+')

  /** The length of the run of non-whitespace characters `s` starts with. */
  function NonSpaceRun(s: string): (r: nat)
    ensures r <= |s| && (r == |s| || IsPySpace(s[r]))
    ensures forall k | 0 <= k < r :: !IsPySpace(s[k])
  {
    if s == [] || IsPySpace(s[0]) then 0 else 1 + NonSpaceRun(s[1..])
  }

  /** The length of `url_pattern.match(s)`, or 0 when it does not match. */
  function UrlMatchLen(s: string): (r: nat)
    ensures r <= |s|
    ensures r > 0 ==> (StartsWith(s, "http://") || StartsWith(s, "https://"))
  {
    if StartsWith(s, "https://") && |s| > 8 && !IsPySpace(s[8]) then 8 + NonSpaceRun(s[8..])
    else if StartsWith(s, "http://") && |s| > 7 && !IsPySpace(s[7]) then 7 + NonSpaceRun(s[7..])
    else 0
  }

  /** `url_pattern.findall(s)`: the matches, left to right, none overlapping. */
  function FindUrls(s: string): seq<string>
    decreases |s|
  {
    if s == [] then []
    else
      var n := UrlMatchLen(s);
      if n > 0 then [s[..n]] + FindUrls(s[n..])
      else FindUrls(s[1..])
  }

  /** Every url found is non-empty and matches the pattern in full. */
  lemma {:induction false} FindUrlsMatch(s: string)
    ensures forall k | 0 <= k < |FindUrls(s)| :: |FindUrls(s)[k]| > 0 && UrlMatchLen(FindUrls(s)[k]) == |FindUrls(s)[k]|
    decreases |s|
  {
    if s != [] {
      var n := UrlMatchLen(s);
      if n > 0 {
        UrlMatchWhole(s);
        FindUrlsMatch(s[n..]);
      } else {
        FindUrlsMatch(s[1..]);
      }
    }
  }

  /** A match, taken on its own, is matched whole. */
  lemma UrlMatchWhole(s: string)
    requires UrlMatchLen(s) > 0
    ensures UrlMatchLen(s[..UrlMatchLen(s)]) == UrlMatchLen(s)
  {
    var n := UrlMatchLen(s);
    var m := s[..n];
    if StartsWith(s, "https://") && |s| > 8 && !IsPySpace(s[8]) {
      assert m[8..] == s[8..][..n - 8];
      NonSpaceRunPrefix(s[8..], n - 8);
    } else {
      assert m[7..] == s[7..][..n - 7];
      NonSpaceRunPrefix(s[7..], n - 7);
      assert !StartsWith(m, "https://") by {
        assert s[4] == ':';
      }
    }
  }

  lemma NonSpaceRunPrefix(s: string, n: nat)
    requires n == NonSpaceRun(s)
    ensures NonSpaceRun(s[..n]) == n
  {
    var t := s[..n];
    assert forall k | 0 <= k < n :: t[k] == s[k];
    NonSpaceRunAll(t);
  }

  lemma {:induction false} NonSpaceRunAll(t: string)
    requires forall k | 0 <= k < |t| :: !IsPySpace(t[k])
    ensures NonSpaceRun(t) == |t|
    decreases |t|
  {
    if t != [] {
      assert forall k | 0 <= k < |t[1..]| :: !IsPySpace(t[1..][k]) by {
        forall k | 0 <= k < |t[1..]| ensures !IsPySpace(t[1..][k]) { assert t[1..][k] == t[k + 1]; }
      }
      NonSpaceRunAll(t[1..]);
    }
  }

  // ---------------------------------------------------------------------------------------------
  // extract_media_links

  datatype MediaKind = Image | Video

  datatype Media = Media(url: string, kind: MediaKind)

  /** Cells that hold a media url. */
  predicate IsMediaCell(cell: string) {
    Contains(cell, "fbcdn.net") || Contains(cell, "youtube.com") || Contains(cell, "ytimg.com")
  }

  /** `image` for a `.jpg` or `.png` cell, `video` for any other. */
  function KindOf(cell: string): (r: MediaKind)
    ensures r == Image <==> Contains(cell, ".jpg") || Contains(cell, ".png")
  {
    if Contains(cell, ".jpg") || Contains(cell, ".png") then Image else Video
  }

  /** The media entry of one media cell: its cleaned url and its kind. */
  function MediaOf(cell: string): Media {
    Media(CleanUrl(cell), KindOf(cell))
  }

  /** The media of `row`: one per media cell, in cell order. */
  function MediaLinks(row: seq<string>): seq<Media>
    decreases |row|
  {
    if row == [] then []
    else MediaLinks(row[..|row| - 1])
         + (if IsMediaCell(row[|row| - 1]) then [MediaOf(row[|row| - 1])] else [])
  }

  /** The media are the media cells of the row, in cell order, each turned into its entry. */
  lemma {:induction false} MediaLinksMapFilter(row: seq<string>)
    ensures MediaLinks(row) == MapSeq(MediaOf, Filter(IsMediaCell, row))
    decreases |row|
  {
    if row != [] {
      var init, last := row[..|row| - 1], row[|row| - 1];
      MediaLinksMapFilter(init);
      assert row == init + [last];
      FilterSnoc(IsMediaCell, init, last);
      assert MediaLinks(row) == MediaLinks(init) + (if IsMediaCell(last) then [MediaOf(last)] else []);
      if IsMediaCell(last) {
        var cells := Filter(IsMediaCell, init) + [last];
        assert Filter(IsMediaCell, row) == cells;
        assert cells[..|cells| - 1] == Filter(IsMediaCell, init);
        assert MapSeq(MediaOf, cells) == MapSeq(MediaOf, Filter(IsMediaCell, init)) + [MediaOf(last)];
      } else {
        assert Filter(IsMediaCell, row) == Filter(IsMediaCell, init) + [];
        assert Filter(IsMediaCell, init) + [] == Filter(IsMediaCell, init);
      }
    }
  }

  /** `extract_media_links(row)`. */
  method ExtractMediaLinks(row: seq<string>) returns (media: seq<Media>)
    ensures media == MediaLinks(row)
  {
    media := [];
    for i := 0 to |row|
      invariant media == MediaLinks(row[..i])
    {
      assert row[..i + 1][..i] == row[..i];
      var cell := row[i];
      if IsMediaCell(cell) {
        media := media + [MediaOf(cell)];
      }
    }
    assert row[..|row|] == row;
  }

  /** The media of `row` are the media cells, in order; none carries a tracking marker. */
  lemma {:induction false} MediaLinksSpec(row: seq<string>)
    ensures |MediaLinks(row)| <= |row|
    ensures forall k | 0 <= k < |MediaLinks(row)| ::
      exists j | 0 <= j < |row| :: IsMediaCell(row[j]) && MediaLinks(row)[k] == MediaOf(row[j])
    ensures forall j | 0 <= j < |row| :: IsMediaCell(row[j]) ==> MediaOf(row[j]) in MediaLinks(row)
    decreases |row|
  {
    if row != [] {
      var init := row[..|row| - 1];
      var last := row[|row| - 1];
      MediaLinksSpec(init);
      var tail := if IsMediaCell(last) then [MediaOf(last)] else [];
      assert MediaLinks(row) == MediaLinks(init) + tail;
      assert |MediaLinks(row)| <= |row| by { assert |tail| <= 1; }
      forall k | 0 <= k < |MediaLinks(row)|
        ensures exists j | 0 <= j < |row| :: IsMediaCell(row[j]) && MediaLinks(row)[k] == MediaOf(row[j])
      {
        if k < |MediaLinks(init)| {
          assert MediaLinks(row)[k] == MediaLinks(init)[k];
          var j :| 0 <= j < |init| && IsMediaCell(init[j]) && MediaLinks(init)[k] == MediaOf(init[j]);
          assert row[j] == init[j];
        } else {
          assert MediaLinks(row)[k] == tail[0];
          assert row[|row| - 1] == last;
        }
      }
      forall j | 0 <= j < |row| && IsMediaCell(row[j])
        ensures MediaOf(row[j]) in MediaLinks(row)
      {
        if j < |init| {
          assert row[j] == init[j];
          assert MediaOf(init[j]) in MediaLinks(init);
        } else {
          assert row[j] == last && tail[0] in MediaLinks(row);
        }
      }
    }
  }

  /** `clean_url` never leaves a tracking marker. */
  lemma CleanUrlClean(url: string)
    ensures !Contains(CleanUrl(url), Marker)
  {
    if url != "" {
      CleanUrlHasNoMarker(url);
    }
  }

  // ---------------------------------------------------------------------------------------------
  // process_row

  datatype EntryKind = PostEntry | LikeEntry | CommentEntry

  datatype User = User(name: Option<string>, role: Option<string>, profileUrl: Option<string>)

  /** A comment read off a row: its author, its text cells joined by a space, and its date. */
  datatype Comment = Comment(author: Option<string>, text: string, timestamp: Option<string>)

  /** An element of an entry's `comments`: read off its own row, or a comment entry `main` attached. */
  datatype Reply = Inline(comment: Comment) | Attached(entry: Entry)

  /** The dictionary `process_row` returns; `links` and `media` are absent when empty. */
  datatype Entry = Entry(
    kind: EntryKind,
    user: User,
    content: string,
    links: Option<seq<string>>,
    media: Option<seq<Media>>,
    comments: seq<Reply>,
    likes: nat,
    timestamp: Option<string>,
    sharedWith: Option<string>,
    groupRoles: seq<string>,
    postUrl: Option<string>)

  /** `current_comment`: the text cells collected so far and the author. */
  datatype Pending = Pending(texts: seq<string>, author: Option<string>)

  /** The entry while the cells are being read, with `current_comment` beside it. */
  datatype Draft = Draft(
    kind: EntryKind,
    name: Option<string>,
    role: Option<string>,
    profileUrl: Option<string>,
    contentCells: seq<string>,
    links: seq<string>,
    comments: seq<Comment>,
    likes: nat,
    timestamp: Option<string>,
    groupRoles: seq<string>,
    postUrl: Option<string>,
    pending: Option<Pending>)

  /** Labels that, in the cell after a name, mark that name as the poster. */
  const UserRoles: seq<string> := ["Top contributor", "Admin", "Moderator"]

  /** Cells never taken as content. */
  const NotContent: seq<string> := ["Like", "Comment", "Admin", "Moderator"]

  /** Python truthiness of an optional string. */
  predicate Truthy(o: Option<string>) {
    o.Some? && o.value != ""
  }

  const Start := Draft(PostEntry, None, None, None, [], [], [], 0, None, [], None, None)

  /** One url of a cell: the group link is the post's url, a user link the profile, the rest links. */
  function AddUrl(d: Draft, url: string): Draft {
    var clean := CleanUrl(url);
    if Contains(clean, "facebook.com/groups") then d.(postUrl := Some(clean))
    else if Contains(clean, "facebook.com/user") then d.(profileUrl := Some(clean))
    else d.(links := d.links + [clean])
  }

  function AddUrls(d: Draft, urls: seq<string>): Draft
    decreases |urls|
  {
    if urls == [] then d else AddUrl(AddUrls(d, urls[..|urls| - 1]), urls[|urls| - 1])
  }

  function IdentifyUser(d: Draft, row: seq<string>, i: nat): Draft
    requires i < |row|
  {
    if !Truthy(d.name) && i + 1 < |row| && row[i + 1] in UserRoles then
      d.(name := Some(row[i]), role := Some(row[i + 1]), groupRoles := d.groupRoles + [row[i + 1]])
    else d
  }

  function DetectContent(d: Draft, row: seq<string>, i: nat, parseDate: string -> Option<string>): Draft
    requires i < |row|
  {
    var cell := row[i];
    if StartsWith(cell, "Like") then
      d.(kind := LikeEntry,
         likes := if i + 1 < |row| && IsDigits(row[i + 1]) then DigitsValue(row[i + 1]) else d.likes)
    else if StartsWith(cell, "Comment") then
      d.(kind := CommentEntry, pending := Some(Pending([], None)))
    else if d.pending.Some? then
      if Contains(cell, "Top contributor") || Contains(cell, "Admin") then
        d.(pending := Some(d.pending.value.(author := Some(cell))))
      else
        var texts := d.pending.value.texts + [cell];
        if |texts| >= 2 then
          d.(comments := d.comments + [Comment(d.pending.value.author, Join(texts, " "), parseDate(cell))],
             pending := None)
        else d.(pending := Some(d.pending.value.(texts := texts)))
    else d
  }

  function Stamp(d: Draft, cell: string, parseDate: string -> Option<string>): Draft {
    if !Truthy(d.timestamp) then d.(timestamp := parseDate(cell)) else d
  }

  function Collect(d: Draft, cell: string): Draft {
    if cell !in NotContent && UrlMatchLen(cell) == 0 then d.(contentCells := d.contentCells + [cell]) else d
  }

  /** What a non-blank cell at `i` does to the entry: urls, poster, likes and comments, date, content. */
  function Advance(d: Draft, row: seq<string>, i: nat, parseDate: string -> Option<string>): Draft
    requires i < |row|
  {
    var d1 := IdentifyUser(AddUrls(d, FindUrls(row[i])), row, i);
    Collect(Stamp(DetectContent(d1, row, i, parseDate), row[i], parseDate), row[i])
  }

  /** The entry after the first `n` cells. */
  function Scan(row: seq<string>, n: nat, parseDate: string -> Option<string>): Draft
    requires n <= |row|
    decreases n, 0
  {
    if n == 0 then Start else Visit(row, n - 1, parseDate)
  }

  /** The entry after cell `i`: a blank cell is skipped. */
  function Visit(row: seq<string>, i: nat, parseDate: string -> Option<string>): Draft
    requires i < |row|
    decreases i, 2
  {
    if IsBlank(row[i]) then Scan(row, i, parseDate) else Process(row, i, parseDate)
  }

  /** The entry after a non-blank cell `i`. */
  function Process(row: seq<string>, i: nat, parseDate: string -> Option<string>): Draft
    requires i < |row|
    decreases i, 1
  {
    Advance(Scan(row, i, parseDate), row, i, parseDate)
  }

  /** One more cell read. */
  lemma ScanNext(row: seq<string>, i: nat, parseDate: string -> Option<string>)
    requires i < |row|
    ensures Scan(row, i + 1, parseDate)
            == if IsBlank(row[i]) then Scan(row, i, parseDate) else Advance(Scan(row, i, parseDate), row, i, parseDate)
  {
    assert Scan(row, i + 1, parseDate) == Visit(row, i, parseDate);
    if !IsBlank(row[i]) {
      assert Visit(row, i, parseDate) == Process(row, i, parseDate);
    }
  }

  predicate IsLong(cell: string) { |cell| > 3 }

  /** The content cells longer than three characters, in order. */
  function LongCells(cells: seq<string>): seq<string> {
    Filter(IsLong, cells)
  }

  /** The long cells are exactly the cells longer than three characters. */
  lemma LongCellsSpec(cells: seq<string>)
    ensures forall c :: c in LongCells(cells) <==> c in cells && |c| > 3
  {
    FilterMembers(IsLong, cells);
  }

  function Inlines(cs: seq<Comment>): (r: seq<Reply>)
    ensures |r| == |cs| && forall k | 0 <= k < |cs| :: r[k] == Inline(cs[k])
  {
    seq(|cs|, k requires 0 <= k < |cs| => Inline(cs[k]))
  }

  predicate SharedPublic(row: seq<string>) {
    exists k | 0 <= k < |row| :: Contains(row[k], "Shared with Public")
  }

  /** The cleanup at the end of `process_row`. */
  function Finish(d: Draft, row: seq<string>): Entry {
    Entry(d.kind, User(d.name, d.role, d.profileUrl),
          PyStrip(Join(LongCells(d.contentCells), " ")),
          if d.links == [] then None else Some(d.links),
          if MediaLinks(row) == [] then None else Some(MediaLinks(row)),
          Inlines(d.comments), d.likes, d.timestamp,
          if SharedPublic(row) then Some("Public") else None,
          d.groupRoles, d.postUrl)
  }

  /** The entry `process_row` returns for `row`. */
  function RowEntry(row: seq<string>, parseDate: string -> Option<string>): Entry {
    Finish(Scan(row, |row|, parseDate), row)
  }

  /** The url loop of `process_row`: each url, cleaned, sets the post's url or the profile, or joins the links. */
  method AddCellUrls(d0: Draft, urls: seq<string>) returns (d: Draft)
    ensures d == AddUrls(d0, urls)
  {
    d := d0;
    for k := 0 to |urls|
      invariant d == AddUrls(d0, urls[..k])
    {
      assert urls[..k + 1][..k] == urls[..k] && urls[..k + 1][k] == urls[k];
      d := AddUrl(d, urls[k]);
    }
    assert urls[..|urls|] == urls;
  }

  /** The body of `process_row`'s loop for the non-blank cell `row[i]`. */
  method ProcessCell(d0: Draft, row: seq<string>, i: nat, parseDate: string -> Option<string>) returns (d: Draft)
    requires i < |row|
    ensures d == Advance(d0, row, i, parseDate)
  {
    var cell := row[i];
    d := AddCellUrls(d0, FindUrls(cell));
    ghost var afterUrls := d;
    // the poster
    if !Truthy(d.name) && i + 1 < |row| {
      if row[i + 1] in UserRoles {
        d := d.(name := Some(cell), role := Some(row[i + 1]), groupRoles := d.groupRoles + [row[i + 1]]);
      }
    }
    assert d == IdentifyUser(afterUrls, row, i);
    ghost var afterUser := d;
    // likes and comments
    if StartsWith(cell, "Like") {
      d := d.(kind := LikeEntry);
      if i + 1 < |row| && IsDigits(row[i + 1]) {
        d := d.(likes := DigitsValue(row[i + 1]));
      }
    } else if StartsWith(cell, "Comment") {
      d := d.(kind := CommentEntry, pending := Some(Pending([], None)));
    } else if d.pending.Some? {
      var current := d.pending.value;
      if Contains(cell, "Top contributor") || Contains(cell, "Admin") {
        d := d.(pending := Some(current.(author := Some(cell))));
      } else {
        current := current.(texts := current.texts + [cell]);
        if |current.texts| >= 2 {
          d := d.(comments := d.comments + [Comment(current.author, Join(current.texts, " "), parseDate(cell))],
                  pending := None);
        } else {
          d := d.(pending := Some(current));
        }
      }
    }
    assert d == DetectContent(afterUser, row, i, parseDate);
    ghost var afterDetect := d;
    // the first date found
    if !Truthy(d.timestamp) {
      d := d.(timestamp := parseDate(cell));
    }
    assert d == Stamp(afterDetect, cell, parseDate);
    ghost var afterStamp := d;
    // content
    if cell !in NotContent && UrlMatchLen(cell) == 0 {
      d := d.(contentCells := d.contentCells + [cell]);
    }
    assert d == Collect(afterStamp, cell);
  }

  /** `process_row(row)`, with the date parser given. */
  method ProcessRow(row: seq<string>, parseDate: string -> Option<string>) returns (entry: Entry)
    ensures entry == RowEntry(row, parseDate)
  {
    var media := ExtractMediaLinks(row);
    var d := Start;
    for i := 0 to |row|
      invariant d == Scan(row, i, parseDate)
    {
      ScanNext(row, i, parseDate);
      if IsBlank(row[i]) {
        continue;
      }
      d := ProcessCell(d, row, i, parseDate);
    }
    entry := Entry(d.kind, User(d.name, d.role, d.profileUrl),
                   PyStrip(Join(LongCells(d.contentCells), " ")),
                   if d.links == [] then None else Some(d.links),
                   if media == [] then None else Some(media),
                   Inlines(d.comments), d.likes, d.timestamp,
                   if SharedPublic(row) then Some("Public") else None,
                   d.groupRoles, d.postUrl);
  }

  // ---------------------------------------------------------------------------------------------
  // what process_row computes

  /** Urls change only the links, the profile and the post's url. */
  lemma {:induction false} AddUrlsKeeps(d: Draft, urls: seq<string>)
    ensures AddUrls(d, urls).(links := d.links, profileUrl := d.profileUrl, postUrl := d.postUrl) == d
    decreases |urls|
  {
    if urls != [] {
      AddUrlsKeeps(d, urls[..|urls| - 1]);
    }
  }

  /** The poster step changes only the name, the role and the group roles. */
  lemma IdentifyUserFrame(d: Draft, row: seq<string>, i: nat)
    requires i < |row|
    ensures IdentifyUser(d, row, i).(name := d.name, role := d.role, groupRoles := d.groupRoles) == d
  { }

  /** The like/comment step changes only the type, the likes, the comments and `current_comment`. */
  lemma DetectContentFrame(d: Draft, row: seq<string>, i: nat, parseDate: string -> Option<string>)
    requires i < |row|
    ensures DetectContent(d, row, i, parseDate).(kind := d.kind, likes := d.likes, comments := d.comments,
                                                  pending := d.pending) == d
  { }

  /** What the like/comment step does to the comments depends on nothing else. */
  lemma DetectContentDependsOnPending(d: Draft, d': Draft, row: seq<string>, i: nat, parseDate: string -> Option<string>)
    requires i < |row| && d.comments == d'.comments && d.pending == d'.pending
    ensures DetectContent(d, row, i, parseDate).comments == DetectContent(d', row, i, parseDate).comments
    ensures DetectContent(d, row, i, parseDate).pending == DetectContent(d', row, i, parseDate).pending
  { }

  lemma StampFrame(d: Draft, cell: string, parseDate: string -> Option<string>)
    ensures Stamp(d, cell, parseDate).(timestamp := d.timestamp) == d
  { }

  lemma CollectFrame(d: Draft, cell: string)
    ensures Collect(d, cell).(contentCells := d.contentCells) == d
  { }

  /** The poster's name cell: not blank and followed by a role label. */
  predicate UserCellAt(row: seq<string>, j: nat) {
    j + 1 < |row| && !IsBlank(row[j]) && row[j + 1] in UserRoles
  }

  /** The first poster's name cell among the first `n` cells. */
  function FirstUserCell(row: seq<string>, n: nat): (r: Option<nat>)
    requires n <= |row|
    ensures r.None? <==> forall j | 0 <= j < n :: !UserCellAt(row, j)
    ensures r.Some? ==> r.value < n && UserCellAt(row, r.value)
    ensures r.Some? ==> forall j | 0 <= j < r.value :: !UserCellAt(row, j)
  {
    if n == 0 then None
    else if FirstUserCell(row, n - 1).Some? then FirstUserCell(row, n - 1)
    else if UserCellAt(row, n - 1) then Some(n - 1)
    else None
  }

  /** One cell's effect on the poster. */
  lemma StepUser(row: seq<string>, i: nat, parseDate: string -> Option<string>)
    requires i < |row|
    ensures var d, e := Scan(row, i, parseDate), Scan(row, i + 1, parseDate);
      if !IsBlank(row[i]) && !Truthy(d.name) && UserCellAt(row, i)
      then e.name == Some(row[i]) && e.role == Some(row[i + 1]) && e.groupRoles == d.groupRoles + [row[i + 1]]
      else e.name == d.name && e.role == d.role && e.groupRoles == d.groupRoles
  {
    var d := Scan(row, i, parseDate);
    ScanNext(row, i, parseDate);
    var cell := row[i];
    if !IsBlank(cell) {
      var d0 := AddUrls(d, FindUrls(cell));
      var d1 := IdentifyUser(d0, row, i);
      var d2 := DetectContent(d1, row, i, parseDate);
      var d3 := Stamp(d2, cell, parseDate);
      var d4 := Collect(d3, cell);
      assert Advance(d, row, i, parseDate) == d4;
      AddUrlsKeeps(d, FindUrls(cell));
      IdentifyUserFrame(d0, row, i);
      DetectContentFrame(d1, row, i, parseDate);
      StampFrame(d2, cell, parseDate);
      CollectFrame(d3, cell);
    }
  }

  /** The poster is the first name followed by a role label; it is set once, with one group role. */
  lemma {:induction false} ScanUser(row: seq<string>, n: nat, parseDate: string -> Option<string>)
    requires n <= |row|
    ensures FirstUserCell(row, n).None? ==>
      Scan(row, n, parseDate).name == None && Scan(row, n, parseDate).role == None
      && Scan(row, n, parseDate).groupRoles == []
    ensures FirstUserCell(row, n).Some? ==>
      var j := FirstUserCell(row, n).value;
      Scan(row, n, parseDate).name == Some(row[j]) && Scan(row, n, parseDate).role == Some(row[j + 1])
      && Scan(row, n, parseDate).groupRoles == [row[j + 1]]
  {
    if n > 0 {
      ScanUser(row, n - 1, parseDate);
      StepUser(row, n - 1, parseDate);
      if FirstUserCell(row, n - 1).Some? {
        assert row[FirstUserCell(row, n - 1).value] != "";
      }
    }
  }

  /** The kind the last cell starting with `Like` or `Comment` among the first `n` names. */
  function LastMarker(row: seq<string>, n: nat): EntryKind
    requires n <= |row|
  {
    if n == 0 then PostEntry
    else if StartsWith(row[n - 1], "Like") then LikeEntry
    else if StartsWith(row[n - 1], "Comment") then CommentEntry
    else LastMarker(row, n - 1)
  }

  /** The count after the last `Like` cell followed by digits, among the first `n` cells. */
  function LastLikes(row: seq<string>, n: nat): nat
    requires n <= |row|
  {
    if n == 0 then 0
    else if StartsWith(row[n - 1], "Like") && n < |row| && IsDigits(row[n]) then DigitsValue(row[n])
    else LastLikes(row, n - 1)
  }

  /** A blank cell is neither a marker nor a url. */
  lemma BlankUnmarked(cell: string)
    requires IsBlank(cell)
    ensures !StartsWith(cell, "Like") && !StartsWith(cell, "Comment") && UrlMatchLen(cell) == 0
  {
    if cell != [] {
      assert IsPySpace(cell[0]);
      assert forall p: string | |p| > 0 && StartsWith(cell, p) :: cell[0] == p[0] by {
        forall p: string | |p| > 0 && StartsWith(cell, p) ensures cell[0] == p[0] {
          assert cell[..|p|][0] == cell[0];
        }
      }
    }
  }

  /** One cell's effect on the type and the likes. */
  lemma StepKindAndLikes(row: seq<string>, i: nat, parseDate: string -> Option<string>)
    requires i < |row|
    ensures var d, e := Scan(row, i, parseDate), Scan(row, i + 1, parseDate);
      e.kind == (if StartsWith(row[i], "Like") then LikeEntry
                 else if StartsWith(row[i], "Comment") then CommentEntry
                 else d.kind)
      && e.likes == (if StartsWith(row[i], "Like") && i + 1 < |row| && IsDigits(row[i + 1])
                     then DigitsValue(row[i + 1]) else d.likes)
  {
    var d := Scan(row, i, parseDate);
    ScanNext(row, i, parseDate);
    var cell := row[i];
    if !IsBlank(cell) {
      var d0 := AddUrls(d, FindUrls(cell));
      var d1 := IdentifyUser(d0, row, i);
      var d2 := DetectContent(d1, row, i, parseDate);
      var d3 := Stamp(d2, cell, parseDate);
      var d4 := Collect(d3, cell);
      assert Advance(d, row, i, parseDate) == d4;
      AddUrlsKeeps(d, FindUrls(cell));
      IdentifyUserFrame(d0, row, i);
      DetectContentFrame(d1, row, i, parseDate);
      StampFrame(d2, cell, parseDate);
      CollectFrame(d3, cell);
    } else {
      BlankUnmarked(cell);
    }
  }

  /** The entry's type is named by the last `Like…`/`Comment…` cell, `post` without one; likes come from the last counted `Like`. */
  lemma {:induction false} ScanKindAndLikes(row: seq<string>, n: nat, parseDate: string -> Option<string>)
    requires n <= |row|
    ensures Scan(row, n, parseDate).kind == LastMarker(row, n)
    ensures Scan(row, n, parseDate).likes == LastLikes(row, n)
  {
    if n > 0 {
      ScanKindAndLikes(row, n - 1, parseDate);
      StepKindAndLikes(row, n - 1, parseDate);
    }
  }

  /** A cell that is kept as content. */
  predicate IsContentCell(cell: string) {
    !IsBlank(cell) && cell !in NotContent && UrlMatchLen(cell) == 0
  }

  /** The content cells among the first `n`, in order. */
  function ContentCells(row: seq<string>, n: nat): seq<string>
    requires n <= |row|
  {
    if n == 0 then []
    else ContentCells(row, n - 1) + (if IsContentCell(row[n - 1]) then [row[n - 1]] else [])
  }

  /** The content cells are exactly the cells among the first `n` that are kept as content. */
  lemma {:induction false} ContentCellsFilter(row: seq<string>, n: nat)
    requires n <= |row|
    ensures forall c | c in ContentCells(row, n) :: IsContentCell(c) && c in row[..n]
    ensures forall j | 0 <= j < n && IsContentCell(row[j]) :: row[j] in ContentCells(row, n)
  {
    if n > 0 {
      ContentCellsFilter(row, n - 1);
      var prev := ContentCells(row, n - 1);
      var extra := if IsContentCell(row[n - 1]) then [row[n - 1]] else [];
      assert ContentCells(row, n) == prev + extra;
      assert row[..n] == row[..n - 1] + [row[n - 1]];
      forall c | c in ContentCells(row, n) ensures IsContentCell(c) && c in row[..n] {
        if c in prev {
          assert c in row[..n - 1];
        }
      }
      forall j | 0 <= j < n && IsContentCell(row[j]) ensures row[j] in ContentCells(row, n) {
        if j < n - 1 {
          assert row[j] in prev;
        }
      }
    }
  }

  /** One cell's effect on the content. */
  lemma StepContent(row: seq<string>, i: nat, parseDate: string -> Option<string>)
    requires i < |row|
    ensures var d := Scan(row, i, parseDate);
      Scan(row, i + 1, parseDate).contentCells
            == d.contentCells + (if IsContentCell(row[i]) then [row[i]] else [])
  {
    var d := Scan(row, i, parseDate);
    ScanNext(row, i, parseDate);
    var cell := row[i];
    if !IsBlank(cell) {
      var d0 := AddUrls(d, FindUrls(cell));
      var d1 := IdentifyUser(d0, row, i);
      var d2 := DetectContent(d1, row, i, parseDate);
      var d3 := Stamp(d2, cell, parseDate);
      var d4 := Collect(d3, cell);
      assert Advance(d, row, i, parseDate) == d4;
      AddUrlsKeeps(d, FindUrls(cell));
      IdentifyUserFrame(d0, row, i);
      DetectContentFrame(d1, row, i, parseDate);
      StampFrame(d2, cell, parseDate);
      CollectFrame(d3, cell);
    }
  }

  /** The content collected is every non-blank cell that is not a label or a url, in order. */
  lemma {:induction false} ScanContent(row: seq<string>, n: nat, parseDate: string -> Option<string>)
    requires n <= |row|
    ensures Scan(row, n, parseDate).contentCells == ContentCells(row, n)
  {
    if n > 0 {
      ScanContent(row, n - 1, parseDate);
      StepContent(row, n - 1, parseDate);
      var extra := if IsContentCell(row[n - 1]) then [row[n - 1]] else [];
      calc {
        Scan(row, n, parseDate).contentCells;
        Scan(row, n - 1, parseDate).contentCells + extra;
        ContentCells(row, n - 1) + extra;
        ContentCells(row, n);
      }
    }
  }

  /** A cell whose date parses to a non-empty text. */
  predicate DatedAt(row: seq<string>, j: nat, parseDate: string -> Option<string>) {
    j < |row| && !IsBlank(row[j]) && Truthy(parseDate(row[j]))
  }

  /** The first dated cell among the first `n`. */
  function FirstDated(row: seq<string>, n: nat, parseDate: string -> Option<string>): (r: Option<nat>)
    requires n <= |row|
    ensures r.None? <==> forall j | 0 <= j < n :: !DatedAt(row, j, parseDate)
    ensures r.Some? ==> r.value < n && DatedAt(row, r.value, parseDate)
    ensures r.Some? ==> forall j | 0 <= j < r.value :: !DatedAt(row, j, parseDate)
  {
    if n == 0 then None
    else if FirstDated(row, n - 1, parseDate).Some? then FirstDated(row, n - 1, parseDate)
    else if DatedAt(row, n - 1, parseDate) then Some(n - 1)
    else None
  }

  /** One cell's effect on the date. */
  lemma StepTimestamp(row: seq<string>, i: nat, parseDate: string -> Option<string>)
    requires i < |row|
    ensures var d := Scan(row, i, parseDate);
      Scan(row, i + 1, parseDate).timestamp
            == if !IsBlank(row[i]) && !Truthy(d.timestamp) then parseDate(row[i]) else d.timestamp
  {
    var d := Scan(row, i, parseDate);
    ScanNext(row, i, parseDate);
    var cell := row[i];
    if !IsBlank(cell) {
      var d0 := AddUrls(d, FindUrls(cell));
      var d1 := IdentifyUser(d0, row, i);
      var d2 := DetectContent(d1, row, i, parseDate);
      var d3 := Stamp(d2, cell, parseDate);
      var d4 := Collect(d3, cell);
      assert Advance(d, row, i, parseDate) == d4;
      AddUrlsKeeps(d, FindUrls(cell));
      IdentifyUserFrame(d0, row, i);
      DetectContentFrame(d1, row, i, parseDate);
      StampFrame(d2, cell, parseDate);
      CollectFrame(d3, cell);
    }
  }

  /** The entry's date is the first date found; it is falsy when no cell has one. */
  lemma {:induction false} ScanTimestamp(row: seq<string>, n: nat, parseDate: string -> Option<string>)
    requires n <= |row|
    ensures FirstDated(row, n, parseDate).None? ==> !Truthy(Scan(row, n, parseDate).timestamp)
    ensures FirstDated(row, n, parseDate).Some? ==>
      Scan(row, n, parseDate).timestamp == parseDate(row[FirstDated(row, n, parseDate).value])
  {
    if n > 0 {
      ScanTimestamp(row, n - 1, parseDate);
      StepTimestamp(row, n - 1, parseDate);
      var prev, cur := Scan(row, n - 1, parseDate).timestamp, Scan(row, n, parseDate).timestamp;
      var first := FirstDated(row, n - 1, parseDate);
      if first.Some? {
        assert FirstDated(row, n, parseDate) == first && Truthy(prev) && cur == prev;
      } else if DatedAt(row, n - 1, parseDate) {
        assert FirstDated(row, n, parseDate) == Some(n - 1) && cur == parseDate(row[n - 1]);
      } else {
        assert FirstDated(row, n, parseDate).None? && !Truthy(cur);
      }
    }
  }

  /** A comment made of two cells, `j` before `k`, dated by the second, authored by a role cell. */
  predicate TwoCellComment(c: Comment, row: seq<string>, n: nat, parseDate: string -> Option<string>)
    requires n <= |row|
  {
    (c.author.Some? ==> Contains(c.author.value, "Top contributor") || Contains(c.author.value, "Admin"))
    && exists j, k | 0 <= j < k < n :: c.text == row[j] + " " + row[k] && c.timestamp == parseDate(row[k])
  }

  /** The comment being collected holds at most one cell. */
  predicate PendingWithin(p: Option<Pending>, row: seq<string>, n: nat)
    requires n <= |row|
  {
    p.Some? ==>
      |p.value.texts| <= 1
      && (|p.value.texts| == 1 ==> exists j | 0 <= j < n :: p.value.texts[0] == row[j])
      && (p.value.author.Some? ==>
            Contains(p.value.author.value, "Top contributor") || Contains(p.value.author.value, "Admin"))
  }

  /** One cell's effect on the comments. */
  lemma StepComments(row: seq<string>, i: nat, parseDate: string -> Option<string>)
    requires i < |row|
    ensures var d, e := Scan(row, i, parseDate), Scan(row, i + 1, parseDate);
      if IsBlank(row[i]) then e.comments == d.comments && e.pending == d.pending
      else e.comments == DetectContent(d, row, i, parseDate).comments
           && e.pending == DetectContent(d, row, i, parseDate).pending
  {
    var d := Scan(row, i, parseDate);
    ScanNext(row, i, parseDate);
    var cell := row[i];
    if !IsBlank(cell) {
      var d0 := AddUrls(d, FindUrls(cell));
      var d1 := IdentifyUser(d0, row, i);
      var d2 := DetectContent(d1, row, i, parseDate);
      var d3 := Stamp(d2, cell, parseDate);
      var d4 := Collect(d3, cell);
      assert Advance(d, row, i, parseDate) == d4;
      AddUrlsKeeps(d, FindUrls(cell));
      IdentifyUserFrame(d0, row, i);
      DetectContentFrame(d1, row, i, parseDate);
      StampFrame(d2, cell, parseDate);
      CollectFrame(d3, cell);
      DetectContentDependsOnPending(d1, d, row, i, parseDate);
    }
  }

  /** The like/comment step keeps every comment made of two cells, and `current_comment` within one. */
  lemma DetectContentTwoCells(d: Draft, row: seq<string>, i: nat, parseDate: string -> Option<string>)
    requires i < |row|
    requires forall c | c in d.comments :: TwoCellComment(c, row, i, parseDate)
    requires PendingWithin(d.pending, row, i)
    ensures forall c | c in DetectContent(d, row, i, parseDate).comments :: TwoCellComment(c, row, i + 1, parseDate)
    ensures PendingWithin(DetectContent(d, row, i, parseDate).pending, row, i + 1)
  {
    forall c | c in d.comments ensures TwoCellComment(c, row, i + 1, parseDate) {
      assert TwoCellComment(c, row, i, parseDate);
    }
    var cell := row[i];
    if !StartsWith(cell, "Like") && !StartsWith(cell, "Comment") && d.pending.Some?
       && !(Contains(cell, "Top contributor") || Contains(cell, "Admin"))
    {
      var texts := d.pending.value.texts + [cell];
      if |texts| >= 2 {
        var j :| 0 <= j < i && d.pending.value.texts[0] == row[j];
        assert texts == [row[j], row[i]];
        assert Join(texts, " ") == row[j] + " " + row[i];
        var c := Comment(d.pending.value.author, Join(texts, " "), parseDate(cell));
        assert TwoCellComment(c, row, i + 1, parseDate);
      } else {
        assert texts[0] == row[i];
      }
    } else if d.pending.Some? && d.pending.value.texts != [] {
      var j :| 0 <= j < i && d.pending.value.texts[0] == row[j];
    }
  }

  /** Every comment of a row joins exactly two of its cells, dated by the later one. */
  lemma {:induction false} ScanComments(row: seq<string>, n: nat, parseDate: string -> Option<string>)
    requires n <= |row|
    ensures forall c | c in Scan(row, n, parseDate).comments :: TwoCellComment(c, row, n, parseDate)
    ensures PendingWithin(Scan(row, n, parseDate).pending, row, n)
  {
    if n > 0 {
      ScanComments(row, n - 1, parseDate);
      var d := Scan(row, n - 1, parseDate);
      StepComments(row, n - 1, parseDate);
      if IsBlank(row[n - 1]) {
        forall c | c in d.comments ensures TwoCellComment(c, row, n, parseDate) {
          assert TwoCellComment(c, row, n - 1, parseDate);
        }
        if d.pending.Some? && d.pending.value.texts != [] {
          var j :| 0 <= j < n - 1 && d.pending.value.texts[0] == row[j];
        }
      } else {
        DetectContentTwoCells(d, row, n - 1, parseDate);
      }
    }
  }

  /** Links carry no tracking marker and are neither group nor user links. */
  predicate LinksClean(d: Draft) {
    (forall l | l in d.links ::
      !Contains(l, Marker) && !Contains(l, "facebook.com/groups") && !Contains(l, "facebook.com/user"))
    && (d.postUrl.Some? ==> Contains(d.postUrl.value, "facebook.com/groups") && !Contains(d.postUrl.value, Marker))
    && (d.profileUrl.Some? ==>
          Contains(d.profileUrl.value, "facebook.com/user") && !Contains(d.profileUrl.value, Marker))
  }

  lemma {:induction false} AddUrlsClean(d: Draft, urls: seq<string>)
    requires LinksClean(d)
    ensures LinksClean(AddUrls(d, urls))
    decreases |urls|
  {
    if urls != [] {
      AddUrlsClean(d, urls[..|urls| - 1]);
      CleanUrlClean(urls[|urls| - 1]);
    }
  }

  /** One cell keeps the links clean. */
  lemma StepLinks(row: seq<string>, i: nat, parseDate: string -> Option<string>)
    requires i < |row| && LinksClean(Scan(row, i, parseDate))
    ensures LinksClean(Scan(row, i + 1, parseDate))
  {
    var d := Scan(row, i, parseDate);
    ScanNext(row, i, parseDate);
    var cell := row[i];
    if !IsBlank(cell) {
      var d0 := AddUrls(d, FindUrls(cell));
      var d1 := IdentifyUser(d0, row, i);
      var d2 := DetectContent(d1, row, i, parseDate);
      var d3 := Stamp(d2, cell, parseDate);
      var d4 := Collect(d3, cell);
      assert Advance(d, row, i, parseDate) == d4;
      AddUrlsClean(d, FindUrls(cell));
      IdentifyUserFrame(d0, row, i);
      DetectContentFrame(d1, row, i, parseDate);
      StampFrame(d2, cell, parseDate);
      CollectFrame(d3, cell);
      assert d4.links == d0.links && d4.postUrl == d0.postUrl && d4.profileUrl == d0.profileUrl;
    }
  }

  /** The post's url, the profile and the links are cleaned and sorted by kind. */
  lemma {:induction false} ScanLinks(row: seq<string>, n: nat, parseDate: string -> Option<string>)
    requires n <= |row|
    ensures LinksClean(Scan(row, n, parseDate))
  {
    if n > 0 {
      ScanLinks(row, n - 1, parseDate);
      StepLinks(row, n - 1, parseDate);
    }
  }

  /** A row's type, likes and content. */
  lemma RowEntryBody(row: seq<string>, parseDate: string -> Option<string>)
    ensures RowEntry(row, parseDate).kind == LastMarker(row, |row|)
    ensures RowEntry(row, parseDate).likes == LastLikes(row, |row|)
    ensures RowEntry(row, parseDate).content == PyStrip(Join(LongCells(ContentCells(row, |row|)), " "))
  {
    var d := Scan(row, |row|, parseDate);
    assert RowEntry(row, parseDate).kind == d.kind && RowEntry(row, parseDate).likes == d.likes;
    assert RowEntry(row, parseDate).content == PyStrip(Join(LongCells(d.contentCells), " "));
    ScanKindAndLikes(row, |row|, parseDate);
    ScanContent(row, |row|, parseDate);
  }

  /** A row's poster. */
  lemma RowEntryUser(row: seq<string>, parseDate: string -> Option<string>)
    ensures FirstUserCell(row, |row|).None? ==>
      RowEntry(row, parseDate).user.name == None && RowEntry(row, parseDate).groupRoles == []
    ensures FirstUserCell(row, |row|).Some? ==>
      RowEntry(row, parseDate).user.name == Some(row[FirstUserCell(row, |row|).value])
      && RowEntry(row, parseDate).groupRoles == [row[FirstUserCell(row, |row|).value + 1]]
  {
    var d := Scan(row, |row|, parseDate);
    assert RowEntry(row, parseDate).user.name == d.name && RowEntry(row, parseDate).groupRoles == d.groupRoles;
    ScanUser(row, |row|, parseDate);
  }

  /** A row's date: the first one found, falsy when there is none. */
  lemma RowEntryDate(row: seq<string>, parseDate: string -> Option<string>)
    ensures FirstDated(row, |row|, parseDate).None? ==> !Truthy(RowEntry(row, parseDate).timestamp)
    ensures FirstDated(row, |row|, parseDate).Some? ==>
      RowEntry(row, parseDate).timestamp == parseDate(row[FirstDated(row, |row|, parseDate).value])
  {
    var d := Scan(row, |row|, parseDate);
    assert RowEntry(row, parseDate).timestamp == d.timestamp;
    ScanTimestamp(row, |row|, parseDate);
  }

  /** A row's comments join two cells each; its links are clean and present only when there are some. */
  lemma RowEntryReplies(row: seq<string>, parseDate: string -> Option<string>)
    ensures forall r | r in RowEntry(row, parseDate).comments ::
      r.Inline? && TwoCellComment(r.comment, row, |row|, parseDate)
    ensures RowEntry(row, parseDate).links.Some? ==>
      RowEntry(row, parseDate).links.value != []
      && forall l | l in RowEntry(row, parseDate).links.value :: !Contains(l, Marker)
  {
    var d := Scan(row, |row|, parseDate);
    var e := RowEntry(row, parseDate);
    assert e.comments == Inlines(d.comments);
    assert e.links == if d.links == [] then None else Some(d.links);
    ScanComments(row, |row|, parseDate);
    ScanLinks(row, |row|, parseDate);
    forall r | r in e.comments
      ensures r.Inline? && TwoCellComment(r.comment, row, |row|, parseDate)
    {
      var k :| 0 <= k < |d.comments| && r == Inlines(d.comments)[k];
      assert d.comments[k] in d.comments;
    }
  }

  // ---------------------------------------------------------------------------------------------
  // main: comment entries join the post before them

  /** The entries as replies, in order. */
  function AsReplies(es: seq<Entry>): (r: seq<Reply>)
    ensures |r| == |es| && forall k | 0 <= k < |es| :: r[k] == Attached(es[k])
  {
    seq(|es|, k requires 0 <= k < |es| => Attached(es[k]))
  }

  /** `post` with `es` appended to its comments. */
  function Attach(post: Entry, es: seq<Entry>): Entry {
    post.(comments := post.comments + AsReplies(es))
  }

  /** One entry into `output`, with the index of `current_post` in it. */
  function GroupStep(output: seq<Entry>, current: Option<nat>, e: Entry): (r: (seq<Entry>, Option<nat>))
    requires current.Some? ==> current.value < |output|
    ensures r.1.Some? ==> r.1.value < |r.0|
  {
    if e.kind == PostEntry then (output + [e], Some(|output|))
    else if e.kind == CommentEntry && current.Some? then
      (output[current.value := Attach(output[current.value], [e])], current)
    else (output + [e], current)
  }

  /** The output and the current post after grouping `es`. */
  function Grouped(es: seq<Entry>): (r: (seq<Entry>, Option<nat>))
    ensures r.1.Some? ==> r.1.value < |r.0|
    decreases |es|
  {
    if es == [] then ([], None)
    else
      var prev := Grouped(es[..|es| - 1]);
      GroupStep(prev.0, prev.1, es[|es| - 1])
  }

  /** The entries of the rows, one per row, in order. */
  function RowEntries(rows: seq<seq<string>>, parseDate: string -> Option<string>): seq<Entry> {
    MapSeq(row => RowEntry(row, parseDate), rows)
  }

  /** One entry per row: entry `k` is `process_row` of row `k`. */
  lemma RowEntriesAt(rows: seq<seq<string>>, parseDate: string -> Option<string>)
    ensures |RowEntries(rows, parseDate)| == |rows|
    ensures forall k | 0 <= k < |rows| :: RowEntries(rows, parseDate)[k] == RowEntry(rows[k], parseDate)
  {
    MapSeqAt(row => RowEntry(row, parseDate), rows);
  }

  /** Grouping one more entry is one `GroupStep`. */
  lemma GroupedSnoc(es: seq<Entry>, e: Entry)
    ensures Grouped(es + [e]) == GroupStep(Grouped(es).0, Grouped(es).1, e)
  {
    assert (es + [e])[..|es|] == es;
  }

  /** The body of `main`'s loop: a post becomes `current_post`, a comment joins it, anything else is kept. */
  method GroupEntry(output: seq<Entry>, current: Option<nat>, entry: Entry)
    returns (output': seq<Entry>, current': Option<nat>)
    requires current.Some? ==> current.value < |output|
    ensures (output', current') == GroupStep(output, current, entry)
  {
    if entry.kind == PostEntry {
      current' := Some(|output|);
      output' := output + [entry];
    } else if entry.kind == CommentEntry && current.Some? {
      current' := current;
      output' := output[current.value := Attach(output[current.value], [entry])];
    } else {
      current' := current;
      output' := output + [entry];
    }
  }

  /** The loop of `main` over the data rows. */
  method ConvertRows(rows: seq<seq<string>>, parseDate: string -> Option<string>) returns (output: seq<Entry>)
    ensures output == Grouped(RowEntries(rows, parseDate)).0
  {
    ghost var seen: seq<Entry> := [];
    output := [];
    var current: Option<nat> := None;
    for i := 0 to |rows|
      invariant seen == RowEntries(rows[..i], parseDate)
      invariant (output, current) == Grouped(seen)
    {
      var entry := ProcessRow(rows[i], parseDate);
      GroupedSnoc(seen, entry);
      MapSeqSnoc(row => RowEntry(row, parseDate), rows, i);
      seen := seen + [entry];
      output, current := GroupEntry(output, current, entry);
    }
    assert rows[..|rows|] == rows;
  }

  predicate NoPosts(es: seq<Entry>) {
    forall k | 0 <= k < |es| :: es[k].kind != PostEntry
  }

  predicate IsComment(e: Entry) { e.kind == CommentEntry }

  predicate IsOther(e: Entry) { e.kind != CommentEntry }

  /** The comment entries of `es`, in order. */
  function CommentsIn(es: seq<Entry>): seq<Entry> {
    Filter(IsComment, es)
  }

  /** The other entries of `es`, in order. */
  function OthersIn(es: seq<Entry>): seq<Entry> {
    Filter(IsOther, es)
  }

  /** The comment entries and the other entries split `es`: each entry lands in exactly the part its type names. */
  lemma SplitByKind(es: seq<Entry>)
    ensures forall k | 0 <= k < |CommentsIn(es)| :: CommentsIn(es)[k].kind == CommentEntry
    ensures forall k | 0 <= k < |OthersIn(es)| :: OthersIn(es)[k].kind != CommentEntry
    ensures multiset(CommentsIn(es)) + multiset(OthersIn(es)) == multiset(es)
  {
    FilterAll(IsComment, es);
    FilterAll(IsOther, es);
    FilterSplit(IsComment, IsOther, es);
  }

  /** Before the first post, every entry is kept at the top level, in order. */
  lemma {:induction false} GroupedWithoutPosts(es: seq<Entry>)
    requires NoPosts(es)
    ensures Grouped(es) == (es, None)
    decreases |es|
  {
    if es != [] {
      var init := es[..|es| - 1];
      assert NoPosts(init) by {
        forall k | 0 <= k < |init| ensures init[k].kind != PostEntry { assert init[k] == es[k]; }
      }
      GroupedWithoutPosts(init);
      assert init + [es[|es| - 1]] == es;
    }
  }

  /** Attaching one more comment entry extends the replies. */
  lemma AttachSnoc(post: Entry, cs: seq<Entry>, e: Entry)
    ensures Attach(Attach(post, cs), [e]) == Attach(post, cs + [e])
  {
    assert AsReplies(cs + [e]) == AsReplies(cs) + AsReplies([e]);
  }

  /** One more non-post entry after the post: a comment joins the post, any other entry is appended. */
  lemma SegmentStep(out: seq<Entry>, post: Entry, seg: seq<Entry>, e: Entry)
    requires e.kind != PostEntry
    ensures GroupStep(out + [Attach(post, CommentsIn(seg))] + OthersIn(seg), Some(|out|), e)
            == (out + [Attach(post, CommentsIn(seg + [e]))] + OthersIn(seg + [e]), Some(|out|))
  {
    FilterSnoc(IsComment, seg, e);
    FilterSnoc(IsOther, seg, e);
    var rest := OthersIn(seg);
    if e.kind == CommentEntry {
      assert IsComment(e) && !IsOther(e);
      assert CommentsIn(seg + [e]) == CommentsIn(seg) + [e] && OthersIn(seg + [e]) == rest;
      AttachSnoc(post, CommentsIn(seg), e);
      var y := Attach(post, CommentsIn(seg + [e]));
      assert (out + [Attach(post, CommentsIn(seg))] + rest)[|out| := y] == out + [y] + rest;
    } else {
      assert !IsComment(e) && IsOther(e);
      assert CommentsIn(seg + [e]) == CommentsIn(seg) && OthersIn(seg + [e]) == rest + [e];
      var x := Attach(post, CommentsIn(seg));
      assert out + [x] + rest + [e] == out + [x] + (rest + [e]);
    }
  }

  /** A post takes the comment entries that follow it up to the next post; the other entries stay after it, in order. */
  lemma {:induction false} GroupedSegment(pre: seq<Entry>, post: Entry, seg: seq<Entry>)
    requires post.kind == PostEntry && NoPosts(seg)
    ensures Grouped(pre + [post] + seg).0
            == Grouped(pre).0 + [Attach(post, CommentsIn(seg))] + OthersIn(seg)
    ensures Grouped(pre + [post] + seg).1 == Some(|Grouped(pre).0|)
    decreases |seg|
  {
    if seg == [] {
      assert pre + [post] + seg == pre + [post];
      GroupedSnoc(pre, post);
      assert Attach(post, []) == post by { assert AsReplies([]) == []; }
    } else {
      var init := seg[..|seg| - 1];
      var e := seg[|seg| - 1];
      assert NoPosts(init) by {
        forall k | 0 <= k < |init| ensures init[k].kind != PostEntry { assert init[k] == seg[k]; }
      }
      GroupedSegment(pre, post, init);
      assert seg == init + [e];
      assert pre + [post] + seg == (pre + [post] + init) + [e];
      GroupedSnoc(pre + [post] + init, e);
      SegmentStep(Grouped(pre).0, post, init, e);
    }
  }
}
