/** Adding a forwarded message to the archive (`add_new_post` and
    `TelegramPost::add_media` in operations.rs).

    Inputs that come from outside the engine: the stored archive (`None`
    when the user has no `data.json` yet), the size of the user's folder as
    measured before the download, the per-user cap in MB, and whether the
    media download succeeded. An `Err` result means nothing is written;
    `Ok(a)` is the archive written back. */
module Ingestion {
  import opened Base
  import opened Errors
  import opened Telegram
  import opened Quota
  import opened Records

  /** Per-file caps of the Bot API for photos and videos, in MB. */
  const MAX_PHOTO_FILE_SIZE_IN_MB: U32 := 5
  const MAX_VIDEO_FILE_SIZE_IN_MB: U32 := 20

  const DEFAULT_USERNAME: string := "(default)"
  const DEFAULT_TITLE: string := "Default album"

  /** The name `download_media_file` stores a file under. */
  function StoredName(fileId: string, extension: string): string {
    fileId + "." + extension
  }

  /** The post id: the original message id, or the local one. */
  function PostIdOf(msg: Message): int {
    msg.forwardFromMessageId.GetOr(msg.id)
  }

  /** The post built from a message before any media is attached. */
  function NewPost(msg: Message): (p: Post)
    ensures p.id == PostIdOf(msg)
    ensures msg.forwardFromMessageId.None? ==> p.id == msg.id
    ensures p.date == msg.date
    ensures msg.forwardDate.None? ==> p.forwardDate == msg.date
    ensures msg.forwardDate.Some? ==> p.forwardDate == msg.forwardDate.value
    ensures msg.text.None? ==> p.text == ""
    ensures msg.text.Some? ==> p.text == msg.text.value
    ensures p.photos == [] && p.videos == []
  {
    Post(PostIdOf(msg), msg.date, msg.forwardDate.GetOr(msg.date), msg.text.GetOr(""), [], [])
  }

  /** The album created for a message whose chat is not in the archive yet;
      a message not forwarded from a chat goes to the default album. */
  function NewChannel(msg: Message): (c: Channel)
    ensures c.id == AlbumIdOf(msg)
    ensures c.posts == []
    ensures msg.forwardFromChat.None? ==> c == Channel(0, DEFAULT_TITLE, "", DEFAULT_USERNAME, [])
    ensures msg.forwardFromChat.Some? && msg.forwardFromChat.value.username.None? ==> c.username == DEFAULT_USERNAME
    ensures msg.forwardFromChat.Some? && msg.forwardFromChat.value.title.None? ==> c.title == DEFAULT_TITLE
    ensures msg.forwardFromChat.Some? ==>
              var chat := msg.forwardFromChat.value;
              && (chat.title.Some? ==> c.title == chat.title.value)
              && c.description == chat.description.GetOr("")
              && (chat.username.Some? ==> c.username == chat.username.value)
  {
    match msg.forwardFromChat
    case None => Channel(0, DEFAULT_TITLE, "", DEFAULT_USERNAME, [])
    case Some(chat) =>
      Channel(chat.id, chat.title.GetOr(DEFAULT_TITLE), chat.description.GetOr(""), chat.username.GetOr(DEFAULT_USERNAME), [])
  }

  /** Attaches at most one media file of `msg` to `post`: the largest photo,
      or the video when it is an MP4. A message with a photo or a video has
      its caption as the post text, even when no file is kept. */
  function AddMedia(post: Post, msg: Message, folderSize: U32, maxFolderMb: U32, downloadOk: bool): (r: Result<Post, Error>)
    ensures msg.photo.None? && msg.video.None? ==> r == Ok(post)
    ensures r.Ok? ==> r.value.id == post.id && r.value.date == post.date && r.value.forwardDate == post.forwardDate
    ensures r.Ok? && (msg.photo.Some? || msg.video.Some?) ==> r.value.text == msg.caption.GetOr("")
    ensures r.Ok? ==> |r.value.photos| + |r.value.videos| <= |post.photos| + |post.videos| + 1
    // Photos: the largest one passes the size gate and is downloaded.
    ensures msg.photo.Some? && |msg.photo.value| == 0 ==> r == Ok(post.(text := msg.caption.GetOr("")))
    ensures msg.photo.Some? && |msg.photo.value| > 0 ==>
              var photo := msg.photo.value[LargestPhoto(msg.photo.value).value];
              var gate := CheckSizes(Photo, photo.size, MAX_PHOTO_FILE_SIZE_IN_MB, folderSize, maxFolderMb);
              && (r.Ok? <==> gate.Ok? && downloadOk)
              && (gate.Err? ==> r == Err(gate.error))
              && (gate.Ok? && !downloadOk ==> r == Err(DownloadFailed))
              && (r.Ok? ==> r.value.photos == post.photos + [StoredName(photo.fileId, "jpg")] && r.value.videos == post.videos)
    // Videos: only an MP4 passes on to the size gate; any other type leaves a text-only post.
    ensures msg.photo.None? && msg.video.Some? && msg.video.value.mimeType != Some(MP4) ==>
              r == Ok(post.(text := msg.caption.GetOr("")))
    ensures msg.photo.None? && msg.video.Some? && msg.video.value.mimeType == Some(MP4) ==>
              var video := msg.video.value;
              var gate := CheckSizes(FileType.Video, video.size, MAX_VIDEO_FILE_SIZE_IN_MB, folderSize, maxFolderMb);
              && (r.Ok? <==> gate.Ok? && downloadOk)
              && (gate.Err? ==> r == Err(gate.error))
              && (gate.Ok? && !downloadOk ==> r == Err(DownloadFailed))
              && (r.Ok? ==> r.value.videos == post.videos + [StoredName(video.fileId, "mp4")] && r.value.photos == post.photos)
    ensures r.Err? ==> r.error in {DownloadFailed, FolderTooLarge(maxFolderMb),
                                   FileTooLarge(Photo, MAX_PHOTO_FILE_SIZE_IN_MB), FileTooLarge(FileType.Video, MAX_VIDEO_FILE_SIZE_IN_MB)}
  {
    if msg.photo.Some? then
      var captioned := post.(text := msg.caption.GetOr(""));
      match LargestPhoto(msg.photo.value)
      case None => Ok(captioned)
      case Some(k) =>
        var photo := msg.photo.value[k];
        match CheckSizes(Photo, photo.size, MAX_PHOTO_FILE_SIZE_IN_MB, folderSize, maxFolderMb)
        case Err(e) => Err(e)
        case Ok(_) =>
          if downloadOk then Ok(captioned.(photos := captioned.photos + [StoredName(photo.fileId, "jpg")]))
          else Err(DownloadFailed)
    else if msg.video.Some? then
      var captioned := post.(text := msg.caption.GetOr(""));
      var video := msg.video.value;
      if video.mimeType == Some(MP4) then
        match CheckSizes(FileType.Video, video.size, MAX_VIDEO_FILE_SIZE_IN_MB, folderSize, maxFolderMb)
        case Err(e) => Err(e)
        case Ok(_) =>
          if downloadOk then Ok(captioned.(videos := captioned.videos + [StoredName(video.fileId, "mp4")]))
          else Err(DownloadFailed)
      else
        Ok(captioned)
    else
      Ok(post)
  }

  /** The channels of the stored archive; none before the first post. */
  function ChannelsOf(stored: Option<Archive>): seq<Channel> {
    match stored
    case Some(archive) => archive.channels
    case None => []
  }

  /** The album of `msg` already holds a post with its id. */
  predicate IsDuplicate(channels: seq<Channel>, msg: Message) {
    var i := IndexOfId(channels, AlbumIdOf(msg));
    i < |channels| && HasPostId(channels[i].posts, PostIdOf(msg))
  }

  /** Adds the post of `msg` to the album of its origin chat, creating the
      album at the end of the list when there is none; a post whose id the
      album already holds is rejected before any media is looked at. */
  function AddNewPost(stored: Option<Archive>, msg: Message, folderSize: U32, maxFolderMb: U32, downloadOk: bool)
    : (r: Result<Archive, Error>)
    ensures var before := ChannelsOf(stored);
            IsDuplicate(before, msg) ==> r == Err(PostExists)
    ensures var before := ChannelsOf(stored);
            var media := AddMedia(NewPost(msg), msg, folderSize, maxFolderMb, downloadOk);
            !IsDuplicate(before, msg) ==> (r.Err? <==> media.Err?) && (r.Err? ==> r.error == media.error)
    // The new post goes at the end of its album; every other album is untouched.
    ensures var before := ChannelsOf(stored);
            var i := IndexOfId(before, AlbumIdOf(msg));
            r.Ok? && i < |before| ==>
              var p := AddMedia(NewPost(msg), msg, folderSize, maxFolderMb, downloadOk).value;
              var after := r.value.channels;
              && |after| == |before|
              && SameMetadata(after[i], before[i])
              && after[i].posts == before[i].posts + [p]
              && (forall j :: 0 <= j < |before| && j != i ==> after[j] == before[j])
    // Without a matching album, a new one holding only the post is appended.
    ensures var before := ChannelsOf(stored);
            r.Ok? && IndexOfId(before, AlbumIdOf(msg)) == |before| ==>
              var p := AddMedia(NewPost(msg), msg, folderSize, maxFolderMb, downloadOk).value;
              var after := r.value.channels;
              && |after| == |before| + 1
              && after[..|before|] == before
              && SameMetadata(after[|before|], NewChannel(msg))
              && after[|before|].posts == [p]
  {
    var post := NewPost(msg);
    var channels := ChannelsOf(stored);
    var i := IndexOfId(channels, AlbumIdOf(msg));
    if i < |channels| && HasPostId(channels[i].posts, post.id) then
      Err(PostExists)
    else
      match AddMedia(post, msg, folderSize, maxFolderMb, downloadOk)
      case Err(e) => Err(e)
      case Ok(p) =>
        if i < |channels| then Ok(Archive(channels[i := channels[i].(posts := channels[i].posts + [p])]))
        else Ok(Archive(channels + [NewChannel(msg).(posts := [p])]))
  }

  /** An album holding the post, preceded by no album with its id, makes
      the message a duplicate. */
  lemma FoundDuplicate(channels: seq<Channel>, msg: Message, i: nat, k: nat)
    requires i < |channels| && channels[i].id == AlbumIdOf(msg)
    requires forall j :: 0 <= j < i ==> channels[j].id != AlbumIdOf(msg)
    requires k < |channels[i].posts| && channels[i].posts[k].id == PostIdOf(msg)
    ensures IsDuplicate(channels, msg)
  {
    assert IndexOfId(channels, AlbumIdOf(msg)) == i;
  }

  /** Forwarding the same message again is rejected as a duplicate,
      whatever the folder size, cap or download outcome of the retry. */
  lemma ReingestIsRejected(stored: Option<Archive>, msg: Message, folderSize: U32, maxFolderMb: U32, downloadOk: bool,
                           folderSize': U32, maxFolderMb': U32, downloadOk': bool)
    requires AddNewPost(stored, msg, folderSize, maxFolderMb, downloadOk).Ok?
    ensures var a := AddNewPost(stored, msg, folderSize, maxFolderMb, downloadOk).value;
            AddNewPost(Some(a), msg, folderSize', maxFolderMb', downloadOk') == Err(PostExists)
  {
    var before := ChannelsOf(stored);
    var after := AddNewPost(stored, msg, folderSize, maxFolderMb, downloadOk).value.channels;
    var i := IndexOfId(before, AlbumIdOf(msg));
    var last := if i < |before| then |before[i].posts| else 0;
    assert forall j :: 0 <= j < i ==> after[j].id == before[j].id;
    FoundDuplicate(after, msg, i, last);
  }

  /** Appending a post whose id is new keeps the ids unique. */
  lemma AppendKeepsPostIdsUnique(posts: seq<Post>, p: Post)
    requires UniquePostIds(posts) && !HasPostId(posts, p.id)
    ensures UniquePostIds(posts + [p])
  {
    var all := posts + [p];
    forall i, j | 0 <= i < j < |all|
      ensures all[i].id != all[j].id
    {
      if j == |posts| {
        assert all[i] == posts[i];
      } else {
        assert all[i] == posts[i] && all[j] == posts[j];
      }
    }
  }

  predicate AllPostIdsUnique(channels: seq<Channel>) {
    forall c :: c in channels ==> UniquePostIds(c.posts)
  }

  lemma AppendToAlbumKeepsPostIdsUnique(before: seq<Channel>, i: nat, p: Post)
    requires AllPostIdsUnique(before)
    requires i < |before| && !HasPostId(before[i].posts, p.id)
    ensures AllPostIdsUnique(before[i := before[i].(posts := before[i].posts + [p])])
  {
    var after := before[i := before[i].(posts := before[i].posts + [p])];
    assert before[i] in before;
    AppendKeepsPostIdsUnique(before[i].posts, p);
    forall c | c in after
      ensures UniquePostIds(c.posts)
    {
      var j :| 0 <= j < |after| && after[j] == c;
      if j != i {
        assert before[j] in before;
      }
    }
  }

  lemma NewAlbumKeepsPostIdsUnique(before: seq<Channel>, c: Channel)
    requires AllPostIdsUnique(before) && |c.posts| == 1
    ensures AllPostIdsUnique(before + [c])
  {
    forall d | d in before + [c]
      ensures UniquePostIds(d.posts)
    {
      if d != c {
        assert d in before;
      }
    }
  }

  /** Ingestion keeps post ids unique within every album. */
  lemma AddNewPostKeepsPostIdsUnique(stored: Option<Archive>, msg: Message, folderSize: U32, maxFolderMb: U32, downloadOk: bool)
    requires AllPostIdsUnique(ChannelsOf(stored))
    requires AddNewPost(stored, msg, folderSize, maxFolderMb, downloadOk).Ok?
    ensures AllPostIdsUnique(AddNewPost(stored, msg, folderSize, maxFolderMb, downloadOk).value.channels)
  {
    var before := ChannelsOf(stored);
    var p := AddMedia(NewPost(msg), msg, folderSize, maxFolderMb, downloadOk).value;
    var i := IndexOfId(before, AlbumIdOf(msg));
    if i < |before| {
      AppendToAlbumKeepsPostIdsUnique(before, i, p);
    } else {
      NewAlbumKeepsPostIdsUnique(before, NewChannel(msg).(posts := [p]));
    }
  }

  /** Album keys are not kept unique: a post forwarded from a chat without a
      public username, into an archive that already has the default album,
      creates a second album with the default username. */
  lemma DefaultUsernameCanRepeat(msg: Message, p: Post, folderSize: U32, maxFolderMb: U32, downloadOk: bool)
    requires msg.forwardFromChat.Some? && msg.forwardFromChat.value.id != 0
    requires msg.forwardFromChat.value.username.None?
    requires msg.photo.None? && msg.video.None?
    ensures var stored := Archive([Channel(0, DEFAULT_TITLE, "", DEFAULT_USERNAME, [p])]);
            var r := AddNewPost(Some(stored), msg, folderSize, maxFolderMb, downloadOk);
            r.Ok? && |r.value.channels| == 2 && !UniqueUsernames(r.value.channels)
  {
    var stored := Archive([Channel(0, DEFAULT_TITLE, "", DEFAULT_USERNAME, [p])]);
    assert IndexOfId(stored.channels, AlbumIdOf(msg)) == 1;
    var r := AddNewPost(Some(stored), msg, folderSize, maxFolderMb, downloadOk);
    assert r.value.channels[1].username == DEFAULT_USERNAME;
  }
}
