/** The earlier archive engine kept in lib.rs. It stores albums under the
    numeric id of their chat rather than a username, keeps no forward date,
    and guards the download only by the per-user folder cap.

    As for the current engine, reading and writing `data.json`, the
    download and the template engine are not modelled; their outcomes are
    inputs. */
module Legacy {
  import opened Base
  import opened Errors
  import opened Text
  import opened Telegram
  import opened Quota

  datatype Post = Post(id: int, date: string, text: string, photos: seq<string>, videos: seq<string>)

  datatype Channel = Channel(id: int, title: string, description: string, username: string, posts: seq<Post>)

  datatype Archive = Archive(channels: seq<Channel>)

  /** Album ids are unique within an archive. */
  predicate UniqueAlbumIds(channels: seq<Channel>) {
    forall i, j :: 0 <= i < j < |channels| ==> channels[i].id != channels[j].id
  }

  predicate HasPostId(posts: seq<Post>, id: int) {
    exists i :: 0 <= i < |posts| && posts[i].id == id
  }

  /** Index of the first album with this id, or `|channels|`. */
  function IndexOfAlbum(channels: seq<Channel>, id: int): (i: nat)
    ensures i <= |channels|
    ensures i < |channels| ==> channels[i].id == id
    ensures forall j :: 0 <= j < i ==> channels[j].id != id
  {
    Position(channels, (c: Channel) => c.id == id)
  }

  // ----- Adding a post -----

  /** The folder cap check: the file and the folder together, summed in
      `u32`, may not exceed the cap converted to bytes in `u32`. */
  predicate FitsFolder(fileSize: U32, folderSize: U32, maxFolderMb: U32) {
    AddWrap(fileSize, folderSize) <= MbToBytes(maxFolderMb)
  }

  /** Without overflow the cap check is the plain comparison, equality
      passing. */
  lemma FitsFolderExact(fileSize: U32, folderSize: U32, maxFolderMb: U32)
    requires maxFolderMb < 4096 && fileSize + folderSize < TWO_TO_THE_32
    ensures FitsFolder(fileSize, folderSize, maxFolderMb) <==> fileSize + folderSize <= maxFolderMb * BYTES_PER_MB
  {
    MbToBytesExact(maxFolderMb);
  }

  /** `TelegramPost::add_media` of lib.rs: like the current engine it keeps
      at most the largest photo or an MP4 video and takes the caption as the
      text, but it has no per-file cap and a single error for a full
      folder. */
  function AddMedia(post: Post, msg: Message, folderSize: U32, maxFolderMb: U32, downloadOk: bool): (r: Result<Post, Error>)
    ensures msg.photo.None? && msg.video.None? ==> r == Ok(post)
    ensures r.Ok? ==> r.value.id == post.id && r.value.date == post.date
    ensures r.Ok? && (msg.photo.Some? || msg.video.Some?) ==> r.value.text == msg.caption.GetOr("")
    ensures r.Err? ==> r.error == FolderLimitExceeded || r.error == DownloadFailed
    ensures msg.photo.Some? && |msg.photo.value| == 0 ==> r == Ok(post.(text := msg.caption.GetOr("")))
    ensures msg.photo.Some? && |msg.photo.value| > 0 ==>
              var photo := msg.photo.value[LargestPhoto(msg.photo.value).value];
              && (r == Err(FolderLimitExceeded) <==> !FitsFolder(photo.size, folderSize, maxFolderMb))
              && (r.Ok? <==> FitsFolder(photo.size, folderSize, maxFolderMb) && downloadOk)
              && (r.Ok? ==> r.value.photos == post.photos + [photo.fileId + ".jpg"] && r.value.videos == post.videos)
    ensures msg.photo.None? && msg.video.Some? && msg.video.value.mimeType != Some(MP4) ==>
              r == Ok(post.(text := msg.caption.GetOr("")))
    ensures msg.photo.None? && msg.video.Some? && msg.video.value.mimeType == Some(MP4) ==>
              var video := msg.video.value;
              && (r == Err(FolderLimitExceeded) <==> !FitsFolder(video.size, folderSize, maxFolderMb))
              && (r.Ok? <==> FitsFolder(video.size, folderSize, maxFolderMb) && downloadOk)
              && (r.Ok? ==> r.value.videos == post.videos + [video.fileId + ".mp4"] && r.value.photos == post.photos)
  {
    if msg.photo.Some? then
      var captioned := post.(text := msg.caption.GetOr(""));
      match LargestPhoto(msg.photo.value)
      case None => Ok(captioned)
      case Some(k) =>
        var photo := msg.photo.value[k];
        if !FitsFolder(photo.size, folderSize, maxFolderMb) then Err(FolderLimitExceeded)
        else if downloadOk then Ok(captioned.(photos := captioned.photos + [photo.fileId + ".jpg"]))
        else Err(DownloadFailed)
    else if msg.video.Some? then
      var captioned := post.(text := msg.caption.GetOr(""));
      var video := msg.video.value;
      if video.mimeType == Some(MP4) then
        if !FitsFolder(video.size, folderSize, maxFolderMb) then Err(FolderLimitExceeded)
        else if downloadOk then Ok(captioned.(videos := captioned.videos + [video.fileId + ".mp4"]))
        else Err(DownloadFailed)
      else
        Ok(captioned)
    else
      Ok(post)
  }

  function NewPost(msg: Message): (p: Post)
    ensures p.id == msg.forwardFromMessageId.GetOr(msg.id)
    ensures p.date == msg.date && p.photos == [] && p.videos == []
    ensures msg.text.None? ==> p.text == ""
    ensures msg.text.Some? ==> p.text == msg.text.value
  {
    Post(msg.forwardFromMessageId.GetOr(msg.id), msg.date, msg.text.GetOr(""), [], [])
  }

  /** A new album takes the chat's fields, each empty when absent; a
      message not forwarded from a chat goes to album 0. */
  function NewChannel(msg: Message): (c: Channel)
    ensures c.id == AlbumIdOf(msg) && c.posts == []
    ensures msg.forwardFromChat.None? ==> c == Channel(0, "", "", "", [])
    ensures msg.forwardFromChat.Some? ==>
              var chat := msg.forwardFromChat.value;
              && c.title == chat.title.GetOr("")
              && c.description == chat.description.GetOr("")
              && c.username == chat.username.GetOr("")
  {
    match msg.forwardFromChat
    case None => Channel(0, "", "", "", [])
    case Some(chat) => Channel(chat.id, chat.title.GetOr(""), chat.description.GetOr(""), chat.username.GetOr(""), [])
  }

  function ChannelsOf(stored: Option<Archive>): seq<Channel> {
    match stored
    case Some(archive) => archive.channels
    case None => []
  }

  /** `add_new_post` of lib.rs: the post goes to the album with the
      message's album id, or to a new album appended at the end; a post id
      the album already holds is rejected before any media is looked at. */
  function AddNewPost(stored: Option<Archive>, msg: Message, folderSize: U32, maxFolderMb: U32, downloadOk: bool)
    : (r: Result<Archive, Error>)
    ensures var before := ChannelsOf(stored);
            var i := IndexOfAlbum(before, AlbumIdOf(msg));
            i < |before| && HasPostId(before[i].posts, NewPost(msg).id) ==> r == Err(PostExists)
    ensures var before := ChannelsOf(stored);
            var i := IndexOfAlbum(before, AlbumIdOf(msg));
            var media := AddMedia(NewPost(msg), msg, folderSize, maxFolderMb, downloadOk);
            !(i < |before| && HasPostId(before[i].posts, NewPost(msg).id)) ==>
              (r.Err? <==> media.Err?) && (r.Err? ==> r.error == media.error)
    ensures var before := ChannelsOf(stored);
            var i := IndexOfAlbum(before, AlbumIdOf(msg));
            r.Ok? && i < |before| ==>
              var p := AddMedia(NewPost(msg), msg, folderSize, maxFolderMb, downloadOk).value;
              var after := r.value.channels;
              && |after| == |before|
              && after[i] == before[i].(posts := before[i].posts + [p])
              && (forall j :: 0 <= j < |before| && j != i ==> after[j] == before[j])
    ensures var before := ChannelsOf(stored);
            r.Ok? && IndexOfAlbum(before, AlbumIdOf(msg)) == |before| ==>
              var p := AddMedia(NewPost(msg), msg, folderSize, maxFolderMb, downloadOk).value;
              r.value.channels == before + [NewChannel(msg).(posts := [p])]
  {
    var post := NewPost(msg);
    var channels := ChannelsOf(stored);
    var i := IndexOfAlbum(channels, AlbumIdOf(msg));
    if i < |channels| && HasPostId(channels[i].posts, post.id) then
      Err(PostExists)
    else
      match AddMedia(post, msg, folderSize, maxFolderMb, downloadOk)
      case Err(e) => Err(e)
      case Ok(p) =>
        if i < |channels| then Ok(Archive(channels[i := channels[i].(posts := channels[i].posts + [p])]))
        else Ok(Archive(channels + [NewChannel(msg).(posts := [p])]))
  }

  /** An album holding the post, preceded by no album with its id, is the
      one the lookup finds. */
  lemma FoundDuplicate(channels: seq<Channel>, albumId: int, postId: int, i: nat, k: nat)
    requires i < |channels| && channels[i].id == albumId
    requires forall j :: 0 <= j < i ==> channels[j].id != albumId
    requires k < |channels[i].posts| && channels[i].posts[k].id == postId
    ensures IndexOfAlbum(channels, albumId) == i
    ensures HasPostId(channels[i].posts, postId)
  {
  }

  /** Forwarding the same message again is rejected as a duplicate. */
  lemma ReingestIsRejected(stored: Option<Archive>, msg: Message, folderSize: U32, maxFolderMb: U32, downloadOk: bool,
                           folderSize': U32, maxFolderMb': U32, downloadOk': bool)
    requires AddNewPost(stored, msg, folderSize, maxFolderMb, downloadOk).Ok?
    ensures var a := AddNewPost(stored, msg, folderSize, maxFolderMb, downloadOk).value;
            AddNewPost(Some(a), msg, folderSize', maxFolderMb', downloadOk') == Err(PostExists)
  {
    var before := ChannelsOf(stored);
    var a := AddNewPost(stored, msg, folderSize, maxFolderMb, downloadOk).value;
    var after := a.channels;
    var i := IndexOfAlbum(before, AlbumIdOf(msg));
    var last := if i < |before| then |before[i].posts| else 0;
    assert forall j :: 0 <= j < i ==> after[j].id == before[j].id;
    FoundDuplicate(after, AlbumIdOf(msg), NewPost(msg).id, i, last);
  }

  /** Albums are found by id and a new one is created only when none has
      the id, so album ids stay unique. */
  lemma AddNewPostKeepsAlbumIdsUnique(stored: Option<Archive>, msg: Message, folderSize: U32, maxFolderMb: U32, downloadOk: bool)
    requires UniqueAlbumIds(ChannelsOf(stored))
    requires AddNewPost(stored, msg, folderSize, maxFolderMb, downloadOk).Ok?
    ensures UniqueAlbumIds(AddNewPost(stored, msg, folderSize, maxFolderMb, downloadOk).value.channels)
  {
    var before := ChannelsOf(stored);
    var after := AddNewPost(stored, msg, folderSize, maxFolderMb, downloadOk).value.channels;
    var i := IndexOfAlbum(before, AlbumIdOf(msg));
    assert forall j :: 0 <= j < |before| ==> after[j].id == before[j].id;
    if i == |before| {
      assert after[|before|].id == AlbumIdOf(msg);
    }
  }

  // ----- Deleting an album -----

  const ALBUM_DELETED: string := "Album deleted"
  const ALBUM_NOT_FOUND: string := "Album not found."

  /** `delete_user_album` of lib.rs: the album folder is removed first, and
      a failure there stops the command before the archive is read; then
      the first album with the id is removed from the archive. */
  function DeleteUserAlbum(archive: Archive, albumId: int, folderRemoved: bool): (out: Outcome<Archive>)
    ensures !folderRemoved ==> out == Outcome(None, Err(AlbumFolderNotDeleted))
    ensures folderRemoved && (forall c :: c in archive.channels ==> c.id != albumId)
            ==> out == Outcome(None, Ok(ALBUM_NOT_FOUND))
    ensures out.saved.Some? <==> folderRemoved && exists c :: c in archive.channels && c.id == albumId
    ensures out.saved.Some? ==> out.result == Ok(ALBUM_DELETED)
    ensures out.saved.Some? ==>
              var i := IndexOfAlbum(archive.channels, albumId);
              && i < |archive.channels|
              && |out.saved.value.channels| == |archive.channels| - 1
              && (forall j :: 0 <= j < i ==> out.saved.value.channels[j] == archive.channels[j])
              && (forall j :: i <= j < |out.saved.value.channels| ==> out.saved.value.channels[j] == archive.channels[j + 1])
  {
    if !folderRemoved then Outcome(None, Err(AlbumFolderNotDeleted))
    else
      var channels := archive.channels;
      var i := IndexOfAlbum(channels, albumId);
      if i == |channels| then
        assert forall c :: c in channels ==> c.id != albumId by {
          forall c | c in channels ensures c.id != albumId {
            var j :| 0 <= j < |channels| && channels[j] == c;
          }
        }
        Outcome(None, Ok(ALBUM_NOT_FOUND))
      else
        assert channels[i] in channels;
        Outcome(Some(Archive(RemoveAt(channels, i))), Ok(ALBUM_DELETED))
  }

  /** With unique ids, deleting an album leaves no album with its id and
      keeps the ids unique. */
  lemma DeleteUserAlbumRemovesIt(archive: Archive, albumId: int)
    requires UniqueAlbumIds(archive.channels)
    ensures var out := DeleteUserAlbum(archive, albumId, true);
            out.saved.Some? ==>
              && (forall c :: c in out.saved.value.channels ==> c.id != albumId)
              && UniqueAlbumIds(out.saved.value.channels)
  {
    var out := DeleteUserAlbum(archive, albumId, true);
    if out.saved.Some? {
      var before := archive.channels;
      var after := out.saved.value.channels;
      var i := IndexOfAlbum(before, albumId);
      forall c | c in after
        ensures c.id != albumId
      {
        var j :| 0 <= j < |after| && after[j] == c;
        if j < i {
          assert before[j].id != before[i].id;
        } else {
          assert before[i].id != before[j + 1].id;
        }
      }
      forall j, k | 0 <= j < k < |after|
        ensures after[j].id != after[k].id
      {
        var j' := if j < i then j else j + 1;
        var k' := if k < i then k else k + 1;
        assert after[j] == before[j'] && after[k] == before[k'];
      }
    }
  }

  // ----- Listing albums -----

  /** The line `get_album_descriptions` of lib.rs shows for an album:
      `<id>) <title> (<n> posts)`. */
  function AlbumLine(c: Channel): string {
    IntToString(c.id) + ") " + c.title + " (" + NatToString(|c.posts|) + " posts)"
  }

  /** One line per album in stored order; no albums is an error. */
  function GetAlbumDescriptions(archive: Archive): (r: Result<seq<string>, Error>)
    ensures r.Err? <==> |archive.channels| == 0
    ensures r.Err? ==> r.error == NoAlbums
    ensures r.Ok? ==> |r.value| == |archive.channels|
    ensures r.Ok? ==> forall i :: 0 <= i < |r.value| ==> r.value[i] == AlbumLine(archive.channels[i])
  {
    var lines := seq(|archive.channels|, i requires 0 <= i < |archive.channels| => AlbumLine(archive.channels[i]));
    if |lines| == 0 then Err(NoAlbums) else Ok(lines)
  }

  /** What a reader of an album line can recover. */
  datatype Summary = Summary(id: int, title: string, postCount: nat)

  const POSTS_SUFFIX: string := " posts)"

  /** Reads what follows the id: ` <title> (<n> posts)`. The post count is
      the run of digits before the closing ` posts)` and the title is what
      lies before ` (`. */
  function ParseTitleAndCount(rest: string): Option<(string, nat)> {
    if |rest| < 1 + |POSTS_SUFFIX| || rest[0] != ' ' || rest[|rest| - |POSTS_SUFFIX|..] != POSTS_SUFFIX then None
    else
      var middle := rest[1..|rest| - |POSTS_SUFFIX|];
      var n := DigitSuffixLength(middle);
      var head := middle[..|middle| - n];
      if n == 0 || |head| < 2 || head[|head| - 2..] != " (" then None
      else Some((head[..|head| - 2], ParseNat(middle[|middle| - n..])))
  }

  /** Reads an album line back: the id runs up to the first `)`. `None`
      for any text not of the album-line shape. */
  function ParseAlbumLine(line: string): Option<Summary> {
    var close := IndexOf(line, ')');
    if close == |line| then None
    else
      match ParseInt(line[..close])
      case None => None
      case Some(id) =>
        match ParseTitleAndCount(line[close + 1..])
        case None => None
        case Some(tc) => Some(Summary(id, tc.0, tc.1))
  }

  lemma ParseTitleAndCountOf(title: string, n: nat)
    ensures ParseTitleAndCount(" " + title + " (" + NatToString(n) + POSTS_SUFFIX) == Some((title, n))
  {
    var count := NatToString(n);
    var rest := " " + title + " (" + count + POSTS_SUFFIX;
    assert rest[|rest| - |POSTS_SUFFIX|..] == POSTS_SUFFIX;
    var middle := rest[1..|rest| - |POSTS_SUFFIX|];
    var head := title + " (";
    assert middle == head + count;
    DigitSuffixOfDigits(head, count);
    assert middle[..|middle| - |count|] == head;
    assert middle[|middle| - |count|..] == count;
    assert head[|head| - 2..] == " (";
    assert head[..|head| - 2] == title;
    ParseNatToString(n);
  }

  /** Reading a line that starts with a printed id and `)`: the id comes
      back and the rest is read as title and count. */
  lemma ParseAlbumLineAfterId(id: int, rest: string)
    ensures ParseAlbumLine(IntToString(id) + (")" + rest))
            == match ParseTitleAndCount(rest)
               case None => None
               case Some(tc) => Some(Summary(id, tc.0, tc.1))
  {
    var idText := IntToString(id);
    var line := idText + (")" + rest);
    IndexOfAfterPrefix(idText, ")" + rest, ')');
    assert line[..|idText|] == idText;
    ParseIntToString(id);
    assert line[|idText| + 1..] == rest;
  }

  /** Every album line reads back as the album's id, title and post count,
      whatever characters the title holds. */
  lemma ParseAlbumLineOfAlbumLine(c: Channel)
    ensures ParseAlbumLine(AlbumLine(c)) == Some(Summary(c.id, c.title, |c.posts|))
  {
    var rest := " " + c.title + " (" + NatToString(|c.posts|) + POSTS_SUFFIX;
    assert AlbumLine(c) == IntToString(c.id) + (")" + rest);
    ParseAlbumLineAfterId(c.id, rest);
    ParseTitleAndCountOf(c.title, |c.posts|);
  }

  // ----- Generating albums -----

  /** The loop of `generate_albums`: renders every album when `albumId` is
      0, and otherwise stops after the first album with that id. */
  method RenderRequested(channels: seq<Channel>, albumId: int, renders: Channel -> bool) returns (generated: seq<Channel>)
    requires albumId != 0 ==> IndexOfAlbum(channels, albumId) < |channels|
    ensures albumId == 0 ==> generated == Filter(channels, renders)
    ensures albumId != 0 ==>
              var c := channels[IndexOfAlbum(channels, albumId)];
              generated == if renders(c) then [c] else []
  {
    var target := IndexOfAlbum(channels, albumId);
    generated := [];
    var i := 0;
    while i < |channels|
      invariant 0 <= i <= |channels|
      invariant albumId == 0 ==> generated == Filter(channels[..i], renders)
      invariant albumId != 0 ==> i <= target && generated == []
    {
      FilterPrefix(channels, i, renders);
      var c := channels[i];
      if albumId == 0 || albumId == c.id {
        if renders(c) {
          generated := generated + [c];
        }
        if albumId == c.id && albumId != 0 {
          assert i == target;
          break;
        }
      }
      i := i + 1;
    }
    assert albumId == 0 && i == |channels| ==> channels[..i] == channels;
  }

  /** `generate_albums` of lib.rs: album id 0 selects every album, any
      other id only the first album with it; the albums that rendered are
      returned. */
  method GenerateAlbums(archive: Archive, albumId: int, templatesLoaded: bool, renders: Channel -> bool)
    returns (r: Result<seq<Channel>, Error>)
    ensures !templatesLoaded ==> r == Err(TemplatesUnavailable)
    ensures templatesLoaded && albumId != 0 && (forall c :: c in archive.channels ==> c.id != albumId)
            ==> r == Err(AlbumNotFound)
    ensures r.Ok? ==> 0 < |r.value| <= |archive.channels| && forall c :: c in r.value ==> renders(c)
    ensures albumId == 0 && templatesLoaded ==>
              r == (var done := Filter(archive.channels, renders); if |done| == 0 then Err(NothingGenerated) else Ok(done))
    ensures albumId != 0 && r.Ok? ==>
              var i := IndexOfAlbum(archive.channels, albumId);
              i < |archive.channels| && r.value == [archive.channels[i]]
    ensures albumId != 0 && templatesLoaded && IndexOfAlbum(archive.channels, albumId) < |archive.channels| ==>
              (r.Ok? <==> renders(archive.channels[IndexOfAlbum(archive.channels, albumId)]))
              && (r.Err? ==> r.error == NothingGenerated)
  {
    var channels := archive.channels;
    if !templatesLoaded {
      return Err(TemplatesUnavailable);
    }
    var target := IndexOfAlbum(channels, albumId);
    if albumId != 0 && target == |channels| {
      assert forall c :: c in channels ==> c.id != albumId by {
        forall c | c in channels ensures c.id != albumId {
          var j :| 0 <= j < |channels| && channels[j] == c;
        }
      }
      return Err(AlbumNotFound);
    }
    var generated := RenderRequested(channels, albumId, renders);
    FilterMembers(channels, renders);
    if |generated| == 0 {
      return Err(NothingGenerated);
    }
    return Ok(generated);
  }
}
