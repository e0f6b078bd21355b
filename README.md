# shell_utils, modelled in Dafny

This project models the data-processing core of four scripts from the `shell_utils` repository:

- **The Facebook group scraper** (`node_scripts/fb-scrapper/index.js`). It intercepts the page's
  GraphQL responses and turns each into post and comment records:
  - one post per feed line, with its preview comments;
  - one comment per edge of a comment list.
  Records are kept in `allContent`. A comment is dropped when an entry with a strictly equal
  `commentId` is already there. At the end the records become a sixteen-column CSV text. The
  driver loop counts posts and scrolls, and a DOM walk collects trimmed text.
- **The Insomnia export generator** (`node_scripts/json-to-postman/index.ts`). It builds a
  workspace and a base environment. Then it adds one folder per primary path segment and one
  request per route and method.
- **The Facebook export converter** (`python_scripts/csv-comments-to-json.py`). It turns each CSV
  row into an entry: links stripped of tracking suffixes, media classified, the poster, likes,
  inline comments, a date and content text. It then attaches comment rows to the most recent post.
- **The serial tracer** (`python_scripts/usb-tracer.py`). It labels a packet's direction from its
  framing bytes and prints it in hex. It cuts the incoming byte stream into 33-byte chunks.

## Modules

- `Wrappers`, `Text`, `Json`, `Seqs` are support modules:
  - Option/Outcome;
  - string helpers with Python's `strip` and JavaScript's `trim`;
  - parsed JSON values with JavaScript's optional chaining, falsiness and `===`;
  - generic maps and filters over sequences, including a `map` whose steps may throw.
- `Csv`: `createCSV`, plus a reader for the format. Reading the written text back is proved to
  give the header and every cell's text, for records with no array-valued field.
- `Email`: `getEmailFromText`. The regular expression's leftmost, longest-run match is specified
  by a predicate over all substrings.
- `Records`: the three feed-line parsers, `formatTopLevelComments`, and the comment-list mapping.
  TypeErrors are modelled as an `Outcome`.
- `ResultSet`: `allContent` as the class `Results`. It has `addCommentsToAllContent` and the XHR
  `load` handler, each proved against a function of the old contents.
- `Harvest`: `run`'s counters and `traverseElementsToGetText`.
- `Postman`: `getPrimarySegment`, `capitalize`, and the export builder as the class `Builder`,
  proved against a functional expansion of the route list.
- `CommentsCsv`: `clean_url`, `extract_media_links`, `process_row` (a method proved equal to a
  cell-by-cell fold) and `main`'s grouping.
- `UsbTracer`: `identify_direction`, the hex rendering, and the chunking loop.

## Model

| member | source | states |
|---|---|---|
| Json.Prop | node_scripts/fb-scrapper/index.js:178-181 | `v?.key` is defined exactly when `v` is an object owning `key`, and is that key's value |
| Json.OrEmpty | node_scripts/fb-scrapper/index.js:193 | `v \|\| ''` is the empty string exactly for falsy values and `v` otherwise |
| Json.StrictEqualsIsValueEquality | node_scripts/fb-scrapper/index.js:289 | on primitive values `===` is value equality |
| Text.SplitJoin | node_scripts/fb-scrapper/index.js:320 | joining the parts of `split(c)` with `c` gives the text back |
| Text.SplitPartsFree | node_scripts/fb-scrapper/index.js:320 | no part of `split(c)` contains `c` |
| Text.PyStrip | python_scripts/csv-comments-to-json.py:120 | `str.strip()` result has no white space at either end, and is empty exactly for blank text |
| Text.PyStripSlice | python_scripts/csv-comments-to-json.py:120 | `str.strip()` is a slice of the text with only white space before and after it |
| Csv.DoubleQuotes | node_scripts/fb-scrapper/index.js:32 | doubling quotes lengthens the text by its number of quotes |
| Csv.QuoteRoundTrip | node_scripts/fb-scrapper/index.js:29-33 | a string cell is written quoted and reads back as the string; `null` is written as `null` |
| Csv.RenderCellEncodes | node_scripts/fb-scrapper/index.js:27-35 | every non-array cell is written either quoted or as comma-, quote- and newline-free text that reads back as itself |
| Csv.RowEncodes | node_scripts/fb-scrapper/index.js:25-37 | when no field of the record is an array, every cell of a row encodes that record's field under the matching header |
| Csv.ParseQuotedDoubled | node_scripts/fb-scrapper/index.js:32 | text with its quotes doubled, then a lone closing quote, reads back as the text, the rest left unread |
| Csv.ParseDocumentJoin | node_scripts/fb-scrapper/index.js:23-38 | cells joined by commas and lines by line feeds read back as the cells' texts |
| Csv.CsvTextRoundTrip | node_scripts/fb-scrapper/index.js:23-38 | for letter-only headers and records with no array-valued field, reading the CSV text gives the header row followed by each record's cell texts in header order |
| Csv.CreateCsvRoundTrip | node_scripts/fb-scrapper/index.js:3-38 | when no field of any record is an array, the scraper's CSV reads back as the sixteen headers followed by one row of texts per record |
| Email.GetEmailFromText | node_scripts/fb-scrapper/index.js:79-83 | nullish text gives ""; the call throws exactly when the text is a non-nullish non-string |
| Email.MatchAtSound | node_scripts/fb-scrapper/index.js:80 | a match found at a position is an e-mail address |
| Email.MatchAtComplete | node_scripts/fb-scrapper/index.js:80 | any e-mail address starting at a position is covered by the match found there |
| Email.FirstMatchLeftmost | node_scripts/fb-scrapper/index.js:81 | the match taken is at the leftmost position where any address starts |
| Email.FirstEmailSpec | node_scripts/fb-scrapper/index.js:79-83 | the result is empty exactly when no substring is an address; otherwise it is the leftmost address, extended as far as the pattern allows |
| Email.EmailHasOneAt | node_scripts/fb-scrapper/index.js:80 | an address holds exactly one `@` |
| Email.GetEmailFromTextSpec | node_scripts/fb-scrapper/index.js:79-83 | the returned text is "" exactly when the input is nullish or holds no address; otherwise it is a substring of the input that is an address |
| Records.SplitName | node_scripts/fb-scrapper/index.js:171-172 | a nullish name gives two undefined parts; the split throws exactly on a non-nullish non-string |
| Records.SplitNameParts | node_scripts/fb-scrapper/index.js:171-172 | first name is the text up to the first space; last name is undefined exactly when there is no space; both are space-free and the name starts with them joined by a space |
| Records.PreviewComment | node_scripts/fb-scrapper/index.js:158-175 | a preview comment's `id` and `commentId` are the comment's own id (`c?.comment.id`), it carries the given `postId`, and its `commentText` is the body text or `''` when that is falsy |
| Records.PreviewComments | node_scripts/fb-scrapper/index.js:158-176 | the map succeeds exactly when every element's record does, and yields them in order |
| Records.FormatTopLevelComments | node_scripts/fb-scrapper/index.js:157-176 | an undefined list gives []; a non-array throws; otherwise one record per element, each with the post's id |
| Records.DecodeStory | node_scripts/fb-scrapper/index.js:190-210 | the post's `id` and `postId` agree; `postText` is "" for falsy text; `email` is a string; every preview comment carries the post's id |
| Records.PostEmailFromText | node_scripts/fb-scrapper/index.js:197 | a post's `email` is "" or a single-`@` address, and non-empty only when `postText` is a string |
| Records.FindTimeStampLink | node_scripts/fb-scrapper/index.js:356-358 | `find` returns the first timestamp link, or none when there is no such link |
| Records.TimeStuff | node_scripts/fb-scrapper/index.js:356-358 | `comment_action_links?.find` throws exactly when the links are a non-nullish non-array |
| Records.CommentFromEdge | node_scripts/fb-scrapper/index.js:349-380 | a comment record has `id` equal to `commentId` and the response's `postId` |
| Records.CommentFromEdgeThrows | node_scripts/fb-scrapper/index.js:349-378 | building a comment throws exactly when the action links are a non-array, or the text or the author's name is a non-string |
| Records.TimestampFromTypedLink | node_scripts/fb-scrapper/index.js:356-360 | `timestamp` and `commentUrl` come from the first timestamp-typed link's comment, and are undefined when there is none |
| Seqs.MapOutcomeAt | node_scripts/fb-scrapper/index.js:350-381 | a `map` whose callback may throw returns exactly when every call returns, and then holds each call's value in order |
| Records.CommentsFromEdges | node_scripts/fb-scrapper/index.js:350-381 | the edge mapping throws exactly when some edge's comment throws; otherwise it gives one comment record per edge, in order |
| Records.CommentList | node_scripts/fb-scrapper/index.js:344-381 | unparsed data gives no list; every comment carries the story's `post_id` and `id == commentId` |
| ResultSet.MergeExtends | node_scripts/fb-scrapper/index.js:287-294 | merging keeps the old contents as a prefix and appends only given comments |
| ResultSet.MergeAppendsFreshIds | node_scripts/fb-scrapper/index.js:289-291 | no appended comment's id is `===` to that of any entry before it |
| ResultSet.MergeKeeps | node_scripts/fb-scrapper/index.js:287-294 | an id present before merging is present after |
| ResultSet.MergeCovers | node_scripts/fb-scrapper/index.js:287-294 | after merging, every given comment with a primitive id has an entry with an equal id |
| ResultSet.MergePresent | node_scripts/fb-scrapper/index.js:289-290 | comments whose ids are all present change nothing |
| ResultSet.MergeIdempotent | node_scripts/fb-scrapper/index.js:287-294 | for comments whose ids are all primitive (not arrays or objects), merging them twice equals merging them once |
| ResultSet.MergeSkipsUndefinedIds | node_scripts/fb-scrapper/index.js:289 | once an entry without `commentId` (a post) is present, a comment without one is dropped |
| ResultSet.AllThree | node_scripts/fb-scrapper/index.js:322-332 | the page decodes exactly when all three lines do, in line order |
| ResultSet.FeedPage | node_scripts/fb-scrapper/index.js:319-332 | a decoded page has three items; fewer than three lines throws |
| ResultSet.ApplyItemsGrows | node_scripts/fb-scrapper/index.js:334-339 | applying a page keeps the old contents as prefix and adds at least one entry per item |
| ResultSet.HandleLoadAppends | node_scripts/fb-scrapper/index.js:313-386 | a response never removes or reorders existing entries |
| ResultSet.FeedPageTwice | node_scripts/fb-scrapper/index.js:314-339 | the same feed page handled twice adds at least six entries, since posts are never deduplicated |
| ResultSet.FeedLineUnparsed | node_scripts/fb-scrapper/index.js:320-332 | a page whose first, second or third line is missing or does not parse throws |
| ResultSet.FeedFailureNoChange | node_scripts/fb-scrapper/index.js:319-332 | a missing or unparsable feed line leaves the contents unchanged |
| ResultSet.CommentsUnparsedNoChange | node_scripts/fb-scrapper/index.js:341-348 | an unparsable comments response leaves the contents unchanged |
| ResultSet.Results.constructor | node_scripts/fb-scrapper/index.js:1 | the results start empty |
| ResultSet.Results.Find | node_scripts/fb-scrapper/index.js:289 | reports whether an entry with a `===` id is present |
| ResultSet.Results.AddCommentsToAllContent | node_scripts/fb-scrapper/index.js:287-294 | the contents become the merge of the old contents and the comments; an undefined list is empty |
| ResultSet.MergeFirstSeen | node_scripts/fb-scrapper/index.js:287-294 | merging appends, in order, exactly the comments whose id is neither in the old contents nor on an earlier comment, so the first comment with an id wins |
| ResultSet.Results.PushItem | node_scripts/fb-scrapper/index.js:334-339 | one decoded item pushes its post, then merges its preview comments |
| ResultSet.Results.OnLoad | node_scripts/fb-scrapper/index.js:313-386 | the contents become the load handler's function of the old contents |
| Harvest.Run | node_scripts/fb-scrapper/index.js:393-420 | the loop stops at the first iteration count not below the current list's length; scrolls left and list reads follow |
| Harvest.RunBound | node_scripts/fb-scrapper/index.js:398-419 | the loop runs at most 50 iterations, or exactly as many as the list read after the last scroll holds |
| Harvest.RunFixedPage | node_scripts/fb-scrapper/index.js:398-419 | on a page whose list never changes, the loop visits each post once |
| Harvest.TrimSpec | node_scripts/fb-scrapper/index.js:126-129 | `trim()` is a slice of the text with only white space outside it, has no white space at either end, and is empty exactly for all-space text |
| Harvest.TraverseElementsToGetText | node_scripts/fb-scrapper/index.js:110-134 | returns the trimmed non-empty texts of the tree's text leaves, in document order |
| Harvest.TraverseChildren | node_scripts/fb-scrapper/index.js:116-121 | the loop concatenates the children's texts in child order |
| Harvest.AppendChild | node_scripts/fb-scrapper/index.js:118-120 | one iteration appends child `i`'s texts to those of the children before it |
| Harvest.TextsTrimmed | node_scripts/fb-scrapper/index.js:110-134 | every collected text is non-empty and trimmed, with at most one per leaf |
| Postman.GetPrimarySegment | node_scripts/json-to-postman/index.ts:107-127 | the folder key is never empty and holds no slash |
| Postman.PrimarySegmentIsFirstSegment | node_scripts/json-to-postman/index.ts:107-127 | the folder key is the path's first segment, with `*` read as `Wildcard` and an empty one as `root` |
| Postman.PrimarySegmentSlashInsensitive | node_scripts/json-to-postman/index.ts:108-110 | a path without a leading slash gets the same folder as with one |
| Postman.PrimarySegmentAuth | node_scripts/json-to-postman/index.ts:101 | `/auth/signup` goes to `auth` |
| Postman.PrimarySegmentSentinels | node_scripts/json-to-postman/index.ts:104-105 | `/*` goes to `Wildcard`; `/` and "" go to `root` |
| Postman.Capitalize | node_scripts/json-to-postman/index.ts:133-136 | "" stays ""; otherwise the first character is upper-cased and the rest is unchanged |
| Postman.CapitalizeIdempotent | node_scripts/json-to-postman/index.ts:133-136 | capitalizing twice is capitalizing once |
| Postman.RequestFor | node_scripts/json-to-postman/index.ts:357-375 | a request sits in its folder, with the verb upper-cased, the name `[verb] path` and the local base URL |
| Postman.InitialHasNoFoldersOrRequests | node_scripts/json-to-postman/index.ts:288-310 | the export starts with the workspace, then the environment under it, and no folder or request |
| Postman.RouteStepEffect | node_scripts/json-to-postman/index.ts:349-379 | one route adds a folder only for a new segment, then one request per method in that folder |
| Postman.ExpandFolderMap | node_scripts/json-to-postman/index.ts:320-344 | known folders keep their ids, and the folder table covers exactly the old keys plus the routes' segments |
| Postman.AllSegmentsFoldered | node_scripts/json-to-postman/index.ts:349-353 | every route's segment has a folder afterwards |
| Postman.ExpandFolders | node_scripts/json-to-postman/index.ts:326-344 | the folders added are the capitalized new segments, in first-appearance order, under the workspace |
| Postman.ExpandRequests | node_scripts/json-to-postman/index.ts:349-379 | the requests added are, route by route and method by method, those expected in each segment's folder |
| Postman.NewSegmentsCount | node_scripts/json-to-postman/index.ts:327-329 | one folder is created per distinct segment not already known |
| Postman.NewSegmentsDistinct | node_scripts/json-to-postman/index.ts:327-329 | no segment gets two folders, and no known segment gets another |
| Postman.FolderAndRequestCounts | node_scripts/json-to-postman/index.ts:288-379 | the export holds one folder per distinct segment and one request per route method |
| Postman.AllExpectedCount | node_scripts/json-to-postman/index.ts:355-378 | the expected requests number one per route method |
| Postman.SingleRoute | node_scripts/json-to-postman/index.ts:288-379 | a one-route export has one folder, for that route's segment, holding one request per method |
| Postman.Builder.constructor | node_scripts/json-to-postman/index.ts:288-310 | the builder starts with the workspace and the environment under it |
| Postman.Builder.GetOrCreateFolderForPrefix | node_scripts/json-to-postman/index.ts:326-344 | a known prefix returns its folder and changes nothing; a new one appends a capitalized folder under the workspace and records it |
| Postman.Builder.AddRequests | node_scripts/json-to-postman/index.ts:355-377 | appends one request per method in order and leaves the folders alone |
| Postman.Builder.AddRoutes | node_scripts/json-to-postman/index.ts:349-379 | the builder's state becomes the functional expansion of the route list |
| CommentsCsv.LineEnd | python_scripts/csv-comments-to-json.py:24 | `.*` runs to the first line break or the end |
| CommentsCsv.CleanUrlHasNoMarker | python_scripts/csv-comments-to-json.py:24 | the substitution leaves no `&__cft__[` |
| CommentsCsv.StripTrackingUnmarked | python_scripts/csv-comments-to-json.py:24 | text without the marker is unchanged |
| CommentsCsv.CleanUrlIdempotent | python_scripts/csv-comments-to-json.py:23-24 | cleaning twice is cleaning once |
| CommentsCsv.CleanSingleLine | python_scripts/csv-comments-to-json.py:24 | on a single line, cleaning keeps exactly the text before the first marker |
| CommentsCsv.CleanUrlClean | python_scripts/csv-comments-to-json.py:23-24 | a cleaned URL contains no tracking marker |
| CommentsCsv.UrlMatchLen | python_scripts/csv-comments-to-json.py:66 | a match starts with `http://` or `https://` |
| CommentsCsv.FindUrlsMatch | python_scripts/csv-comments-to-json.py:73 | every URL found is non-empty and matches the pattern in full |
| CommentsCsv.UrlMatchWhole | python_scripts/csv-comments-to-json.py:66 | a matched URL, cut out, still matches whole |
| CommentsCsv.KindOf | python_scripts/csv-comments-to-json.py:44 | a media cell is an image exactly when it contains `.jpg` or `.png` |
| CommentsCsv.ExtractMediaLinks | python_scripts/csv-comments-to-json.py:38-46 | the loop yields the media of the row |
| CommentsCsv.MediaLinksSpec | python_scripts/csv-comments-to-json.py:38-46 | every media entry is a cleaned, classified media cell of the row, and every such cell gives one |
| CommentsCsv.MediaLinksMapFilter | python_scripts/csv-comments-to-json.py:38-46 | the media are the row's media cells in cell order, one entry each, with its cleaned url and kind |
| CommentsCsv.LongCellsSpec | python_scripts/csv-comments-to-json.py:120 | a cell is kept exactly when it is one of the content cells and is longer than three characters |
| CommentsCsv.AddCellUrls | python_scripts/csv-comments-to-json.py:73-81 | the url loop leaves the draft each cleaned url in turn gives: a groups url sets the post's url, a user url the profile, any other joins the links |
| CommentsCsv.ProcessCell | python_scripts/csv-comments-to-json.py:72-117 | the body for one non-blank cell applies the url, poster, like/comment, date and content steps in that order |
| CommentsCsv.ProcessRow | python_scripts/csv-comments-to-json.py:48-124 | the loop gives the entry of the cell-by-cell fold |
| CommentsCsv.ScanNext | python_scripts/csv-comments-to-json.py:68-117 | one more cell: a blank cell changes nothing, any other applies the steps of one iteration |
| CommentsCsv.FirstUserCell | python_scripts/csv-comments-to-json.py:84-85 | the first cell followed by a role label, or none |
| CommentsCsv.ScanUser | python_scripts/csv-comments-to-json.py:84-88 | the poster and role come from the first cell followed by a role label; there is at most one group role |
| CommentsCsv.RowEntryUser | python_scripts/csv-comments-to-json.py:84-88 | an entry's user name and group roles come from the first name/role pair, else none |
| CommentsCsv.ScanKindAndLikes | python_scripts/csv-comments-to-json.py:91-96 | the kind is set by the last `Like`/`Comment` cell; the likes by the last `Like` cell followed by digits |
| CommentsCsv.RowEntryBody | python_scripts/csv-comments-to-json.py:91-120 | an entry's kind and likes come from its last marker cells; its content is the stripped join of its long content cells |
| CommentsCsv.ContentCellsFilter | python_scripts/csv-comments-to-json.py:69-117 | the content cells are exactly the non-blank cells that are not labels and do not start with a URL |
| CommentsCsv.ScanContent | python_scripts/csv-comments-to-json.py:68-117 | the content cells collected are the non-blank, non-label, non-URL cells, in order |
| CommentsCsv.FirstDated | python_scripts/csv-comments-to-json.py:112-113 | the first non-blank cell that parses as a date, or none |
| CommentsCsv.ScanTimestamp | python_scripts/csv-comments-to-json.py:112-113 | the entry's timestamp is the first date parsed from a cell, falsy if none |
| CommentsCsv.RowEntryDate | python_scripts/csv-comments-to-json.py:112-113 | an entry's timestamp is the first cell's date, falsy if none |
| CommentsCsv.ScanComments | python_scripts/csv-comments-to-json.py:95-109 | each inline comment joins two text cells of its row and takes its date from the second |
| CommentsCsv.RowEntryReplies | python_scripts/csv-comments-to-json.py:73-122 | a row's comments are inline two-cell comments; its links, when present, are non-empty and carry no tracking marker |
| CommentsCsv.ScanLinks | python_scripts/csv-comments-to-json.py:73-81 | every link kept is cleaned of its tracking suffix |
| CommentsCsv.RowEntriesAt | python_scripts/csv-comments-to-json.py:136-137 | one entry per row, in order: entry `k` is `process_row` of row `k` |
| CommentsCsv.Grouped | python_scripts/csv-comments-to-json.py:135-145 | the current post always indexes an entry of the output |
| CommentsCsv.GroupEntry | python_scripts/csv-comments-to-json.py:139-145 | a post is appended and becomes the current post, a comment with a current post joins its comments, anything else is appended |
| CommentsCsv.GroupedSnoc | python_scripts/csv-comments-to-json.py:136-145 | grouping one more entry is one step of the loop body |
| CommentsCsv.ConvertRows | python_scripts/csv-comments-to-json.py:130-145 | the loop's output is the grouping of the rows' entries |
| CommentsCsv.SplitByKind | python_scripts/csv-comments-to-json.py:139-145 | the comment entries and the other entries split the entries: each part holds only its kind, and together they hold every entry as often as it occurs |
| CommentsCsv.GroupedWithoutPosts | python_scripts/csv-comments-to-json.py:139-145 | before the first post every entry is output as is |
| CommentsCsv.GroupedSegment | python_scripts/csv-comments-to-json.py:139-145 | a post is output once, holding all comment entries up to the next post; likes after it are output after it |
| UsbTracer.IdentifyDirection | python_scripts/usb-tracer.py:13-23 | `UNKNOWN` exactly when the packet is short or not framed by 0x02…0x03; master-to-slave exactly when framed with an upper-case command letter; else slave-to-master |
| UsbTracer.DirectionFromFramingBytes | python_scripts/usb-tracer.py:13-23 | the direction depends only on the length, the first, fifth and last bytes |
| UsbTracer.LabelsDistinct | python_scripts/usb-tracer.py:15-23 | the three labels differ |
| UsbTracer.Hex | python_scripts/usb-tracer.py:10 | two lower-case hex digits per byte |
| UsbTracer.HexRoundTrip | python_scripts/usb-tracer.py:10 | the hex text decodes back to the bytes |
| UsbTracer.FormatLine | python_scripts/usb-tracer.py:8-11 | the line ends with the packet's hex text |
| UsbTracer.Received | python_scripts/usb-tracer.py:31-33 | the bytes received are no more than the reads made |
| UsbTracer.Push | python_scripts/usb-tracer.py:33-38 | one byte joins the buffer; a buffer of more than 32 bytes is printed as one chunk labelled with its direction and emptied, so the chunks and the buffer together gain exactly that byte |
| UsbTracer.Trace | python_scripts/usb-tracer.py:29-38 | every printed chunk is 33 bytes labelled by its direction; the printed chunks followed by the buffer are exactly the bytes received; the buffer never exceeds 32 bytes |
| UsbTracer.FlattenLength | python_scripts/usb-tracer.py:34-38 | chunks of 33 bytes flatten to 33 bytes each |
| UsbTracer.ChunksOfReceived | python_scripts/usb-tracer.py:29-38 | the chunks printed are the consecutive 33-byte slices of the stream, and the buffer is what follows the last |

## Left out

- Browser I/O is not modelled:
  - the DOM clicks and dialogs (`clickOnComments`, `closeDialog`);
  - `getAllPosts`, whose list lengths are a parameter of `Harvest.Run`;
  - `scrollDown`'s timer, `sleep`, `console.log`;
  - the XHR patching in `interceptRequests`, except the `load` handler;
  - the `Blob` that `createCSV` makes and never uses.
- `JSON.parse` is a parameter (`string -> Option<Json>`). The JSON grammar is not modelled, and
  numbers are integers only.
- `ResultSet.Results.OnLoad`: all three feed lines are parsed before any push, so an exception in
  any of them leaves `allContent` unchanged. The model keeps this. It does not model an
  exception thrown from the comment branch's `console.log`.
- `Records.FormatTopLevelComments`: the default parameter `= []` applies only to `undefined`. A
  `null` list throws like any other non-array, and the model says so.
- `Harvest.Run`: only the counters are modelled. Which post is clicked is not, nor the awaited
  delays.
- `Harvest.Trim` and `Text.PyStrip`: white space is the full set of characters that
  ECMAScript's `trim` (WhiteSpace and LineTerminator) and Python's `str.isspace` accept under the
  current Unicode version, listed one by one. Characters a later Unicode version adds are not
  tracked.
- `Csv.CreateCsvRoundTrip`, `Csv.CsvTextRoundTrip` and `Csv.RowEncodes`: an array-valued field
  is written unquoted, its elements joined by commas, so its record does not read back cell for
  cell. These are proved only for records with no array field; `Csv.CsvTextRoundTrip` also takes
  letter-only headers, which the scraper's sixteen headers are.
- `Json.StrictEquals`: JavaScript compares arrays and objects by identity. The model never treats
  two of them as `===`, even the same object compared with itself. Every response is parsed
  afresh, so the scraper never compares an object with itself.
- `Postman.Capitalize` and `Postman.RequestFor`: upper-casing covers ASCII letters only.
  JavaScript's full Unicode `toUpperCase` (which can lengthen text) is not modelled.
- `Postman.Builder.GetOrCreateFolderForPrefix`: `folderMap` is a map. The source's plain object
  would find inherited keys such as `constructor`, and the model does not reproduce that.
- `generateId`'s `Math.random` and `Date.now` are a parameter `suffix`, which gives each call's
  suffix. Ids start with their prefix, so a stored folder id is never empty and `folderMap[prefix]`
  is truthy exactly when the prefix has a folder.
- The constant fields of each resource (empty bodies, headers, sort keys, cookie settings) and
  the environment's `metaSortKey` timestamp are not modelled.
- Writing `insomnia-export.json` is not modelled.
- `parse_date` is a parameter `string -> Option<string>`. Its two patterns, `strptime` and the
  current year are not modelled.
- `str.isdigit` is ASCII-only in the model. For a cell such as `²`, Python's `isdigit()` is true but
  `int()` raises `ValueError`, which ends the script. The model leaves `likes` unchanged instead.
- Argument parsing, the output path, reading the CSV header row and the `json.dump` output are not
  modelled. `CommentsCsv.ConvertRows` takes the data rows.
- `CommentsCsv.ConvertRows`: `current_post` is the dictionary already appended to `output`, so
  appending to its comments changes that output element. The model keeps an index into the
  output instead of a shared reference.
- `CommentsCsv.ProcessRow`: the comment author is the whole cell that contains `Top contributor`
  or `Admin`, as the source does. `shared_with` reads any cell containing `Shared with Public`.
- The serial port and the clock are not modelled. `UsbTracer.Trace` takes the results of a finite
  number of one-byte reads, where `None` is a read that timed out. The source loops forever and
  prints the exception that ends it.
- `UsbTracer.Push`: the print condition `direction != "UNKNOWN" or len(buffer) > 3` always holds
  once the buffer exceeds 32 bytes, so every full chunk is printed.
- `UsbTracer.FormatLine` takes the timestamp text as a parameter.
- `python_scripts/csv-to-json.py` and `python_scripts/qrcode_generator.py` are not part of this
  model.
