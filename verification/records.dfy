/** The per-user archive of operations.rs (`TelegramData`,
    `TelegramChannel`, `TelegramPost`) as immutable values. The archive is
    the document stored as `data.json`; reading and writing it are not part
    of this model. */
module Records {
  import opened Base
  import opened Errors

  datatype Post = Post(id: int, date: string, forwardDate: string, text: string, photos: seq<string>, videos: seq<string>)

  /** `username` is the album's key: its folder name and the name users
      refer to it by. */
  datatype Channel = Channel(id: int, title: string, description: string, username: string, posts: seq<Post>)

  datatype Archive = Archive(channels: seq<Channel>)

  /** The stored file names of one kind of a post. */
  function Files(p: Post, kind: FileType): seq<string> {
    match kind
    case Photo => p.photos
    case Video => p.videos
  }

  /** The file names of one kind of all `posts`, in order. */
  function AllFiles(posts: seq<Post>, kind: FileType): seq<string>
    decreases |posts|
  {
    if |posts| == 0 then [] else AllFiles(posts[..|posts| - 1], kind) + Files(posts[|posts| - 1], kind)
  }

  lemma {:induction false} AllFilesConcat(a: seq<Post>, b: seq<Post>, kind: FileType)
    ensures AllFiles(a + b, kind) == AllFiles(a, kind) + AllFiles(b, kind)
    decreases |b|
  {
    if |b| == 0 {
      assert a + b == a;
    } else {
      assert (a + b)[..|a + b| - 1] == a + b[..|b| - 1];
      AllFilesConcat(a, b[..|b| - 1], kind);
    }
  }

  predicate HasPostId(posts: seq<Post>, id: int) {
    exists i :: 0 <= i < |posts| && posts[i].id == id
  }

  /** Post ids are unique within a channel. */
  predicate UniquePostIds(posts: seq<Post>) {
    forall i, j :: 0 <= i < j < |posts| ==> posts[i].id != posts[j].id
  }

  /** Index of the first channel with this id, or `|channels|`. */
  function IndexOfId(channels: seq<Channel>, id: int): (i: nat)
    ensures i <= |channels|
    ensures i < |channels| ==> channels[i].id == id
    ensures forall j :: 0 <= j < i ==> channels[j].id != id
  {
    Position(channels, (c: Channel) => c.id == id)
  }

  /** Index of the first channel with this username, or `|channels|`. */
  function IndexOfUsername(channels: seq<Channel>, username: string): (i: nat)
    ensures i <= |channels|
    ensures i < |channels| ==> channels[i].username == username
    ensures forall j :: 0 <= j < i ==> channels[j].username != username
  {
    Position(channels, (c: Channel) => c.username == username)
  }

  /** Album usernames are unique within an archive. */
  predicate UniqueUsernames(channels: seq<Channel>) {
    forall i, j :: 0 <= i < j < |channels| ==> channels[i].username != channels[j].username
  }

  /** The channel fields other than `posts` agree. */
  predicate SameMetadata(a: Channel, b: Channel) {
    a.id == b.id && a.title == b.title && a.description == b.description && a.username == b.username
  }
}
