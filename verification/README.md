# ArchiveGramBot album-archive engine in Dafny

ArchiveGramBot is a Telegram bot. A user forwards it messages, and it keeps
an archive of them per user. The archive is a list of albums ("channels"),
one per origin chat, and each album holds a list of posts. The bot stores
each post's photo or video next to the archive. Later it merges posts that
Telegram split apart, lists, deletes and renders albums to HTML.

This project models the decision logic of that engine as pure functions
over an immutable archive value, and proves what the operations promise.

- `base.dfy` (`Base`) holds the shared building blocks:
  - Rust's `Option` and `Result`;
  - `u32` values with release-build wrap-around;
  - first-match search (`position`/`find`);
  - `Vec::remove`;
  - `filter`.
- `text.dfy` (`Text`) holds:
  - the order Rust uses to compare `String`s;
  - decimal rendering of integers, with its inverse parser.
- `errors.dfy` (`Errors`) holds:
  - every error the engine reports, with its exact text, and the fact
    that no two errors share a text;
  - `Outcome`, the result of a command that may also write the archive back.
- `utils.dfy` (`Utils`) models `truncate_string`.
- `telegram.dfy` (`Telegram`) holds:
  - the fields of an incoming message the engine reads;
  - the album a message belongs to, and the one video type kept;
  - the choice of the largest photo.
- `records.dfy` (`Records`) holds the archive of `src/operations.rs`:
  `TelegramData`, `TelegramChannel` and `TelegramPost`.
- `quota.dfy` (`Quota`) models `check_sizes`.
- `ingestion.dfy` (`Ingestion`) models `TelegramPost::add_media` and
  `add_new_post`.
- `consolidation.dfy` (`Consolidation`) models `round_to_nearest_minute` and
  `consolidate_media`:
  - group posts by truncated dates;
  - fold each group into one post;
  - sort by date string.
- `albums.dfy` (`Albums`) models `delete_user_album`,
  `get_album_descriptions` and `generate_albums`.
- `legacy.dfy` (`Legacy`) models the older engine in `src/lib.rs`. It keys
  albums by chat id, with id 0 meaning "all". It has only a folder quota and
  no forward date.

Conventions of the model:

- **Results.** An `Err` result means the operation stopped early and wrote
  nothing. `Ok(a)` is the archive written back.
- **Deletes.** Deleting an album writes the archive and removes a folder, in
  an order that differs between the two engines. So deletes return an
  `Outcome`: the archive saved (if any) and the reply.
- **Effects as inputs.** The model takes these as inputs:
  - whether a download succeeded;
  - the byte size of a folder;
  - whether a folder could be removed;
  - whether the templates loaded;
  - which albums render;
  - how a stored date string parses to seconds.
- **`u32` arithmetic.** It wraps modulo 2^32, as in a release build. Lemmas
  give the plain arithmetic statement for inputs that do not overflow. Other
  lemmas exhibit what the wrap-around admits:
  - `Quota.CheckSizesSumWraps`: a folder already over its cap still admits a
    file whose size carries the `u32` sum past 2^32;
  - `Quota.CheckSizesCapWraps`: a cap of 4096 MB converts to 0 bytes.
- **Album keys.** The source looks albums up by chat id when it adds a post,
  and by username when it deletes or renders one. Nothing keeps usernames
  unique. A message forwarded from a chat without a public username goes to
  an album with the username `(default)`, whatever the chat's id, so two
  albums can share it (`Ingestion.DefaultUsernameCanRepeat`).
  `operations.rs` never checks that album usernames are unique, and the
  model follows it. The lemmas about deleting by username assume unique
  usernames and say so in their rows.
- **Re-running consolidation.** The source groups posts in a `HashMap`, and
  the order of the groups before the sort is unspecified. The model groups
  in order of first occurrence. The properties of one pass hold whatever
  the group order: the posts come out sorted by date string, with one post
  per key, each the fold of its key's posts, and no file lost or
  duplicated. The two idempotence lemmas, `ConsolidatePostsIdempotent` and
  `ConsolidateMediaIdempotent`, depend on the order. A first pass leaves one
  post per key, so a second pass merges nothing, in whatever minutes the
  posts fall. The model's second pass then returns the posts in the same
  order. The source's second pass may reorder posts with equal date
  strings, which is common when a batch of messages is forwarded at once.
  For the source, a second pass therefore gives the same posts, equally
  sorted, but possibly in another order among equal dates.

## Model

| member | source | states |
|---|---|---|
| Errors.DescribeInjective | src/operations.rs:160-183 | distinct errors carry distinct message texts: the size-limit texts built here differ from each other and from every fixed text (operations.rs lines 114, 138, 271, 320, 355, 483, 515 and 614, lib.rs lines 57, 63 and 84), and the text determines the file kind and the MB cap it names |
| Utils.TruncateString | src/utils.rs:69-75 | a string of at most `maxLength` chars is returned unchanged (equality included); a longer one becomes its first `maxLength` chars followed by "..."; the length is `min(count, maxLength)` plus 3 when truncated, so at most `maxLength + 3`; with `maxLength` 0 any non-empty string becomes exactly "..." |
| Utils.TruncateStringIdempotent | src/utils.rs:69-75 | truncating a truncated string again changes nothing |
| Text.LexLeTotal | src/operations.rs:417 | any two date strings are comparable in the order `String::cmp` uses |
| Text.LexLeTransitive | src/operations.rs:417 | that order is transitive, so sorting by it is well defined |
| Text.IntToString | src/lib.rs:184 | an integer's `to_string` text: a `-` exactly when it is negative, then decimal digits only, with no leading zero except for 0 itself |
| Text.ParseIntToString | src/lib.rs:184 | the decimal text `to_string` gives an integer reads back as that integer |
| Telegram.LargestPhoto | src/operations.rs:97-98 | `max_by_key(width * height)` picks a photo of maximal area, the last of several equal maxima, and none only for an empty list |
| Quota.CheckSizes | src/operations.rs:148-188 | the per-file cap is checked first and rejects exactly when the file exceeds the cap in bytes; only a file within it is checked against the folder cap, rejected exactly when file plus folder exceed that cap; equality passes both; the error names the file kind and cap |
| Quota.MbToBytesExact | src/operations.rs:158-159 | the MB-to-bytes conversion is exact below 4096 MB |
| Quota.CheckSizesExact | src/operations.rs:158-187 | without overflow, the gate is the plain arithmetic: FileTooLarge iff size > cap·2^20, else FolderTooLarge iff size + folder > cap·2^20, else Ok |
| Quota.CheckSizesSumWraps | src/operations.rs:174-175 | a folder of 2^32-1 bytes, already over a 4095 MB cap, still admits a 1-byte photo because the `u32` sum wraps to 0 |
| Quota.CheckSizesCapWraps | src/operations.rs:158 | a folder cap of 4096 MB converts to 0 bytes: a non-empty file within a 5 MB file cap, whose `u32` sum with the folder size does not wrap, is refused with the folder error |
| Ingestion.NewPost | src/operations.rs:543-556 | the post id is the original message id, falling back to the local one; the date is copied; the forward date falls back to the date; the text is the message text, or empty when there is none; no media is attached yet |
| Ingestion.NewChannel | src/operations.rs:537-542 | a forwarded chat's id, title, description and username are copied, with "Default album", an empty description and "(default)" for those missing; a non-forwarded message gets album id 0 with those defaults |
| Ingestion.AddMedia | src/operations.rs:77-146 | at most one file is attached: the largest photo, or else a video only when its type is "video/mp4"; a photo or video sets the caption as text even when no file is kept; a file the size gate refuses fails with the gate's own error, one that passes but does not download fails with the download error, and otherwise the file is appended |
| Ingestion.AddNewPost | src/operations.rs:588-636 | a post id already in the album with the message's chat id is rejected before any media is looked at; otherwise the result fails exactly when attaching media fails; on success the post is appended to that album, other albums unchanged, or a new album holding only the post is appended at the end |
| Ingestion.ReingestIsRejected | src/operations.rs:594-614 | forwarding the same message again after it was stored is rejected as a duplicate, whatever the sizes or download outcome of the retry |
| Ingestion.AddNewPostKeepsPostIdsUnique | src/operations.rs:594-604 | if every album's post ids are unique before, they are unique after |
| Ingestion.DefaultUsernameCanRepeat | src/operations.rs:537-542 | a post forwarded from any chat with a non-zero id and no username, added to an archive holding the default album, creates a second album with username "(default)" |
| Consolidation.RustRem | src/operations.rs:196 | the result is the remainder of `%` on `i64`: `a` minus a whole multiple of `b`, with the sign of the dividend and smaller than the divisor in magnitude |
| Consolidation.TruncateToMinute | src/operations.rs:195-198 | the result is a whole minute; for t ≥ 0 it is at most t and less than 60 below it (truncation, not rounding); for t < 0 it lies at or above t within 60 |
| Consolidation.TruncateToMinuteIdempotent | src/operations.rs:195-198 | truncating twice equals truncating once |
| Consolidation.TruncateToMinuteSameMinute | src/operations.rs:195-198 | two non-negative timestamps truncate alike iff they lie in the same minute |
| Consolidation.WithKey | src/operations.rs:382-393 | reference definition of one group: the posts carrying a key, in their original order |
| Consolidation.GroupPostsGroupsOf | src/operations.rs:382-393 | grouping yields one group per distinct key, no key twice, each group non-empty and equal to the key's posts in original order |
| Consolidation.AddToGroupsKeepsGroupsOf | src/operations.rs:389-392 | inserting one post into the groups of a list gives the groups of the extended list |
| Consolidation.AbsorbCaption | src/operations.rs:405-407 | absorbing a post with a non-empty text replaces the caption and an empty text keeps it, preserving the last-non-empty-caption rule |
| Consolidation.MergeIsMergedFrom | src/operations.rs:399-412 | the fold of a non-empty group keeps the first post's id, date and forward date, concatenates all photos and all videos in order, and carries the last non-empty later caption or else the first post's |
| Consolidation.MergeGroups | src/operations.rs:396-414 | the `flat_map` yields exactly one folded post per non-empty group, in group order |
| Consolidation.InsertByDatePermutes | src/operations.rs:417 | inserting a post adds exactly that post to the multiset of posts |
| Consolidation.InsertByDateSorted | src/operations.rs:417 | inserting into a list sorted by date string keeps it sorted |
| Consolidation.SortByDateSorted | src/operations.rs:417 | the sorted posts are non-decreasing by date string |
| Consolidation.SortByDatePermutes | src/operations.rs:417 | the sort returns a permutation of its input |
| Consolidation.SortByDateOfSorted | src/operations.rs:417 | sorting posts already in date order returns them unchanged |
| Consolidation.GroupPostsKeepsFiles | src/operations.rs:382-393 | grouping neither loses nor duplicates any photo or video file name |
| Consolidation.MergeGroupsFiles | src/operations.rs:396-414 | folding the groups concatenates their files in order |
| Consolidation.SortByDateKeepsFiles | src/operations.rs:417 | sorting keeps the multiset of file names |
| Consolidation.SortByDateKeepsDistinctKeys | src/operations.rs:417 | sorting cannot make two posts share a key |
| Consolidation.MergedPostsFaithful | src/operations.rs:396-414 | before sorting there is one merged post per key of the input, each the fold of exactly that key's posts |
| Consolidation.ConsolidatePostsSorted | src/operations.rs:417 | an album's new posts are sorted by date string |
| Consolidation.ConsolidatePostsKeys | src/operations.rs:381-414 | the new posts have one post per key of the old posts, no key twice and no other key |
| Consolidation.ConsolidatePostsMerged | src/operations.rs:381-414 | each new post is the fold of exactly the old posts sharing its key |
| Consolidation.ConsolidatePostsFiles | src/operations.rs:381-419 | the new posts hold the same multiset of photo file names, and of video file names, as the old ones |
| Consolidation.GroupPostsDistinct | src/operations.rs:382-393 | posts whose keys are all distinct each form a group of their own, in order |
| Consolidation.ConsolidatePostsIdempotent | src/operations.rs:377-420 | in the model's group order, consolidating an album's posts twice gives the same posts as once |
| Consolidation.ConsolidateMedia | src/operations.rs:372-420 | an archive without albums is the "no albums found" error; otherwise album count, order and metadata are unchanged and only each album's posts are replaced by their consolidation |
| Consolidation.ConsolidateMediaIdempotent | src/operations.rs:372-420 | in the model's group order, consolidating a consolidated archive leaves it unchanged |
| Records.IndexOfId | src/operations.rs:588-591 | `find` by chat id returns the first album with the id, or reports none when no album has it |
| Records.IndexOfUsername | src/operations.rs:285-288 | `position` by username returns the first album with the username, or reports none |
| Albums.DeleteUserAlbum | src/operations.rs:265-325 | an empty username is an error with nothing written; a username no album has replies "Album not found." with nothing written; otherwise only the first album with it is removed, the rest kept in order, the archive written, and the reply is "Album deleted." or the folder-removal error |
| Albums.DeleteUserAlbumRemovesIt | src/operations.rs:285-297 | with unique usernames, no album with the username remains, every other album survives and usernames stay unique |
| Albums.DeleteUserAlbumTwice | src/operations.rs:285-294 | when album usernames are unique, deleting the same album a second time replies "Album not found." and writes nothing |
| Albums.CentiMb | src/utils.rs:48-50 | the folder size shown is the byte count in MB rounded to the nearest hundredth, halves up (held as an integer count of hundredths) |
| Albums.GetAlbumDescriptions | src/operations.rs:327-359 | one entry per album in stored order, each the album with its folder size; no albums is the "no albums found" error |
| Albums.RenderRequested | src/operations.rs:485-511 | the loop renders every album for "<ALL>"; for another username it renders only the first album with it and stops |
| Albums.GenerateAlbums | src/operations.rs:453-528 | checks in order: empty username, then template loading, then a username other than "<ALL>" that no album has ("Album not found!"); "<ALL>" returns every album that renders; a specific username returns at most that first album; nothing rendered is "no albums have been generated"; the count is at most the number of albums |
| Legacy.FitsFolderExact | src/lib.rs:44-58 | without overflow the older quota admits a file iff file plus folder is at most the cap·2^20 |
| Legacy.AddMedia | src/lib.rs:41-92 | as the current engine but with no per-file cap: the largest photo or an MP4 video is refused with "User folder has exceeded the size limit!" iff the `u32` sum exceeds the cap, else kept iff downloaded |
| Legacy.NewPost | src/lib.rs:271-281 | the post id is the original message id, falling back to the local one; the date is copied; the text is the message text, or empty when there is none; no media yet |
| Legacy.NewChannel | src/lib.rs:270-289 | a forwarded chat's id, title, description and username are copied, each empty when missing; a non-forwarded message gets album id 0 with all three empty |
| Legacy.AddNewPost | src/lib.rs:296-345 | a duplicate post id in the album with the message's chat id is rejected; otherwise the result fails iff attaching media fails, and on success the album gets the post appended or a new one-post album is appended |
| Legacy.ReingestIsRejected | src/lib.rs:305-314 | forwarding the same message again is rejected as a duplicate |
| Legacy.AddNewPostKeepsAlbumIdsUnique | src/lib.rs:305-322 | album ids stay unique, since an album is created only when none has the id |
| Legacy.IndexOfAlbum | src/lib.rs:159 | the search by id returns the first album with it, or reports none |
| Legacy.DeleteUserAlbum | src/lib.rs:137-172 | the folder is removed first and a failure stops with nothing written; then a missing id replies "Album not found." with nothing written; otherwise only the first album with the id is removed, others kept in order, and the reply is "Album deleted" |
| Legacy.DeleteUserAlbumRemovesIt | src/lib.rs:159-161 | with unique ids, no album with the id remains and ids stay unique |
| Legacy.GetAlbumDescriptions | src/lib.rs:174-193 | one line per album in stored order, formatted `<id>) <title> (<n> posts)`; no albums is the "no albums found" error |
| Legacy.ParseAlbumLineOfAlbumLine | src/lib.rs:184 | every album line reads back as the album's id, title and post count, whatever the title contains |
| Legacy.RenderRequested | src/lib.rs:224-241 | the loop renders every album for id 0; for another id it renders only the first album with it and stops |
| Legacy.GenerateAlbums | src/lib.rs:206-256 | template loading is checked first, then a non-zero id no album has ("Album not found!"); id 0 returns every album that renders; a non-zero id returns at most its first album; nothing rendered is "no albums have been generated"; the count is at most the number of albums |

## Left out

- Reading and writing `data.json` is not modelled, nor any other file-system
  work: creating folders, copying, writing HTML, zipping, and
  `delete_user_folders`. The archive is passed in and returned, and an `Err`
  stands for "nothing written". A failure of the JSON write itself is not
  modelled.
- The Telegram transport is not modelled (`get_file`, `download_file`, the
  `Message` accessors). A message is a plain value, and a download's success
  is a boolean input.
- `get_folder_size` walks the file system. The folder size is an input of
  type `u32`.
- `convert_to_mb`: the model keeps the integer number of hundredths of a MB.
  It does not model the final division by 100 into an `f64`.
- `parse_date` (chrono parsing, with a panic on malformed text) is a total
  function parameter `seconds`. `Utc::now()` appears only in the zip file
  name and is left out.
- Tera: template loading and rendering are inputs (`templatesLoaded`, and
  `renders` for each album). The template engine's own error text is
  replaced by a fixed message.
- The handlers, `main.rs` and configuration loading are not modelled. They
  cover command dispatch, user-facing replies and the 20 MB send check.
- `Mime` comparison is modelled as equality of the type string with
  "video/mp4". Mime parsing normalises case and parameters, and the model
  does not.
- Debug-build overflow panics are not modelled: `u32` arithmetic wraps, as
  in a release build. Nor is the panic of `msg.from().unwrap()`.
- HashMap iteration order: groups are formed in order of first occurrence
  (see above).
- Integer widths of ids (`i32` post ids, `i64` chat ids) are unbounded
  integers. The engine only compares them and renders them as text.
- Consolidation.ConsolidatePostsIdempotent: it relies on the model's group
  order. For the source it holds only up to the order of posts with equal
  date strings.
- Consolidation.ConsolidateMediaIdempotent: it inherits that reliance. The
  source's second pass keeps every album's posts, but it may reorder posts
  with equal date strings within an album.
- Albums.GenerateAlbums and Legacy.GenerateAlbums: these return the albums
  that rendered, and the source returns their count. The path of the zip
  file is not modelled.
