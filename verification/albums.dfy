/** The album commands of operations.rs: deleting one album
    (`delete_user_album`), listing the albums with their folder sizes
    (`get_album_descriptions`) and rendering albums to HTML
    (`generate_albums`).

    Reading `data.json` is not modelled: each operation receives the stored
    archive. What the file system and the template engine report is passed
    in as well: whether the album folder could be removed, the byte size of
    each album folder, whether the templates loaded, and which albums render
    without error. */
module Albums {
  import opened Base
  import opened Errors
  import opened Quota
  import opened Records

  // ----- Deleting an album -----

  const ALBUM_DELETED: string := "Album deleted."
  const ALBUM_NOT_FOUND: string := "Album not found."

  /** `after` is `before` with its first album named `username` removed and
      every other album kept in order. */
  predicate RemovedFirst(before: seq<Channel>, after: seq<Channel>, username: string) {
    exists i :: 0 <= i < |before|
      && before[i].username == username
      && (forall j :: 0 <= j < i ==> before[j].username != username)
      && after == before[..i] + before[i + 1..]
  }

  /** The archive is written back before the album folder is removed, so a
      failure to remove the folder still leaves the album deleted from the
      archive. */
  function DeleteUserAlbum(archive: Archive, username: string, folderRemoved: bool): (out: Outcome<Archive>)
    ensures username == "" ==> out == Outcome(None, Err(UsernameMissing))
    ensures username != "" && (forall c :: c in archive.channels ==> c.username != username)
            ==> out == Outcome(None, Ok(ALBUM_NOT_FOUND))
    ensures out.saved.Some? <==> username != "" && exists c :: c in archive.channels && c.username == username
    ensures out.saved.Some? ==> RemovedFirst(archive.channels, out.saved.value.channels, username)
    ensures out.saved.Some? ==> out.result == (if folderRemoved then Ok(ALBUM_DELETED) else Err(AlbumFolderNotDeleted))
  {
    if username == "" then Outcome(None, Err(UsernameMissing))
    else
      var channels := archive.channels;
      var i := IndexOfUsername(channels, username);
      if i == |channels| then
        assert forall c :: c in channels ==> c.username != username by {
          forall c | c in channels ensures c.username != username {
            var j :| 0 <= j < |channels| && channels[j] == c;
          }
        }
        Outcome(None, Ok(ALBUM_NOT_FOUND))
      else
        assert channels[i] in channels;
        var saved := Archive(RemoveAt(channels, i));
        Outcome(Some(saved), if folderRemoved then Ok(ALBUM_DELETED) else Err(AlbumFolderNotDeleted))
  }

  lemma RemoveAtDropsUsername(before: seq<Channel>, i: nat)
    requires UniqueUsernames(before) && i < |before|
    ensures forall c :: c in RemoveAt(before, i) ==> c.username != before[i].username
  {
    var after := RemoveAt(before, i);
    forall c | c in after
      ensures c.username != before[i].username
    {
      var j :| 0 <= j < |after| && after[j] == c;
      if j >= i {
        assert after[j] == before[j + 1];
      }
    }
  }

  lemma RemoveAtKeepsOthers(before: seq<Channel>, i: nat)
    requires i < |before|
    ensures forall c :: c in before && c.username != before[i].username ==> c in RemoveAt(before, i)
  {
    var after := RemoveAt(before, i);
    forall c | c in before && c.username != before[i].username
      ensures c in after
    {
      var j :| 0 <= j < |before| && before[j] == c;
      if j < i {
        assert after[j] == c;
      } else {
        assert after[j - 1] == c;
      }
    }
  }

  lemma RemoveAtKeepsUnique(before: seq<Channel>, i: nat)
    requires UniqueUsernames(before) && i < |before|
    ensures UniqueUsernames(RemoveAt(before, i))
  {
    var after := RemoveAt(before, i);
    forall j, k | 0 <= j < k < |after|
      ensures after[j].username != after[k].username
    {
      var j' := if j < i then j else j + 1;
      var k' := if k < i then k else k + 1;
      assert after[j] == before[j'] && after[k] == before[k'];
    }
  }

  /** With unique usernames the deleted album is gone for good, every other
      album survives, and usernames stay unique. */
  lemma DeleteUserAlbumRemovesIt(archive: Archive, username: string, folderRemoved: bool)
    requires UniqueUsernames(archive.channels)
    ensures var out := DeleteUserAlbum(archive, username, folderRemoved);
            out.saved.Some? ==>
              && |out.saved.value.channels| == |archive.channels| - 1
              && (forall c :: c in out.saved.value.channels ==> c.username != username)
              && (forall c :: c in archive.channels && c.username != username ==> c in out.saved.value.channels)
              && UniqueUsernames(out.saved.value.channels)
  {
    var channels := archive.channels;
    var i := IndexOfUsername(channels, username);
    if username != "" && i < |channels| {
      RemoveAtDropsUsername(channels, i);
      RemoveAtKeepsOthers(channels, i);
      RemoveAtKeepsUnique(channels, i);
    }
  }

  /** Deleting the same album twice: the second attempt finds nothing and
      writes nothing. */
  lemma DeleteUserAlbumTwice(archive: Archive, username: string, removed1: bool, removed2: bool)
    requires UniqueUsernames(archive.channels)
    requires DeleteUserAlbum(archive, username, removed1).saved.Some?
    ensures var once := DeleteUserAlbum(archive, username, removed1).saved.value;
            DeleteUserAlbum(once, username, removed2) == Outcome(None, Ok(ALBUM_NOT_FOUND))
  {
    DeleteUserAlbumRemovesIt(archive, username, removed1);
  }

  // ----- Listing albums -----

  /** `ChannelInfo`: an album with the size of its folder in hundredths of
      a MB. */
  datatype ChannelInfo = ChannelInfo(channel: Channel, centiMb: nat)

  /** `convert_to_mb` scaled by 100: the byte count in MB rounded to the
      nearest hundredth, halves rounded up. For a `u32` byte count every
      intermediate value of the floating-point computation is exact, so
      this integer is exactly what the source rounds to. */
  function CentiMb(bytes: U32): (r: nat)
    ensures -(BYTES_PER_MB / 2) < r * BYTES_PER_MB - bytes * 100 <= BYTES_PER_MB / 2
  {
    (bytes * 100 + BYTES_PER_MB / 2) / BYTES_PER_MB
  }

  /** One entry per album in stored order, each with its folder's size;
      an archive without albums is an error. */
  function GetAlbumDescriptions(archive: Archive, folderBytes: string -> U32): (r: Result<seq<ChannelInfo>, Error>)
    ensures r.Err? <==> |archive.channels| == 0
    ensures r.Err? ==> r.error == NoAlbums
    ensures r.Ok? ==> |r.value| == |archive.channels|
    ensures r.Ok? ==> forall i :: 0 <= i < |r.value| ==>
              && r.value[i].channel == archive.channels[i]
              && r.value[i].centiMb == CentiMb(folderBytes(archive.channels[i].username))
  {
    var channels := archive.channels;
    var infos := seq(|channels|, i requires 0 <= i < |channels| =>
                       ChannelInfo(channels[i], CentiMb(folderBytes(channels[i].username))));
    if |infos| == 0 then Err(NoAlbums) else Ok(infos)
  }

  // ----- Generating albums -----

  /** The username that selects every album. */
  const ALL_ALBUMS: string := "<ALL>"

  /** The loop of `generate_albums`: renders every album for `<ALL>`, and
      otherwise stops after the first album with the username. */
  method RenderRequested(channels: seq<Channel>, username: string, renders: Channel -> bool) returns (generated: seq<Channel>)
    requires username != ALL_ALBUMS ==> IndexOfUsername(channels, username) < |channels|
    ensures username == ALL_ALBUMS ==> generated == Filter(channels, renders)
    ensures username != ALL_ALBUMS ==>
              var c := channels[IndexOfUsername(channels, username)];
              generated == if renders(c) then [c] else []
  {
    var target := IndexOfUsername(channels, username);
    generated := [];
    var i := 0;
    while i < |channels|
      invariant 0 <= i <= |channels|
      invariant username == ALL_ALBUMS ==> generated == Filter(channels[..i], renders)
      invariant username != ALL_ALBUMS ==> i <= target && generated == []
    {
      FilterPrefix(channels, i, renders);
      var c := channels[i];
      if username == ALL_ALBUMS || username == c.username {
        if renders(c) {
          generated := generated + [c];
        }
        if username == c.username && username != ALL_ALBUMS {
          assert i == target;
          break;
        }
      }
      i := i + 1;
    }
    assert username == ALL_ALBUMS && i == |channels| ==> channels[..i] == channels;
  }

  /** Renders the requested albums and returns those that rendered; the
      source reports their count. For `<ALL>` every album is attempted; for
      any other username only the first album with that username is, as the
      loop stops after it. A render error is logged and skipped, and
      nothing rendered at all is an error. */
  method GenerateAlbums(archive: Archive, username: string, templatesLoaded: bool, renders: Channel -> bool)
    returns (r: Result<seq<Channel>, Error>)
    ensures username == "" ==> r == Err(UsernameMissing)
    ensures username != "" && !templatesLoaded ==> r == Err(TemplatesUnavailable)
    ensures username != "" && username != ALL_ALBUMS && templatesLoaded
            && (forall c :: c in archive.channels ==> c.username != username)
            ==> r == Err(AlbumNotFound)
    ensures r.Ok? ==> 0 < |r.value| <= |archive.channels| && forall c :: c in r.value ==> renders(c)
    ensures username == ALL_ALBUMS && templatesLoaded ==>
              r == (var done := Filter(archive.channels, renders); if |done| == 0 then Err(NothingGenerated) else Ok(done))
    ensures username != ALL_ALBUMS && r.Ok? ==>
              var i := IndexOfUsername(archive.channels, username);
              i < |archive.channels| && r.value == [archive.channels[i]]
    ensures username != "" && username != ALL_ALBUMS && templatesLoaded
            && IndexOfUsername(archive.channels, username) < |archive.channels| ==>
              (r.Ok? <==> renders(archive.channels[IndexOfUsername(archive.channels, username)]))
              && (r.Err? ==> r.error == NothingGenerated)
  {
    var channels := archive.channels;
    if username == "" {
      return Err(UsernameMissing);
    }
    if !templatesLoaded {
      return Err(TemplatesUnavailable);
    }
    var target := IndexOfUsername(channels, username);
    if username != ALL_ALBUMS && target == |channels| {
      assert forall c :: c in channels ==> c.username != username by {
        forall c | c in channels ensures c.username != username {
          var j :| 0 <= j < |channels| && channels[j] == c;
        }
      }
      return Err(AlbumNotFound);
    }
    var generated := RenderRequested(channels, username, renders);
    FilterMembers(channels, renders);
    if |generated| == 0 {
      return Err(NothingGenerated);
    }
    return Ok(generated);
  }
}
