/** The failures the archive engine reports, and the exact text each one
    carries in the Rust source (the bot's handlers show or pattern-match
    these strings). */
module Errors {
  import opened Base
  import opened Text

  /** Kind of a stored media file (`FileType` in operations.rs). */
  datatype FileType = Photo | Video

  datatype Error =
    | UsernameMissing
    | AlbumNotFound
    | NoAlbums
    | NothingGenerated
    | PostExists
      /** A photo or video larger than its per-file cap, in MB. */
    | FileTooLarge(kind: FileType, limitMb: nat)
      /** Per-user folder cap of operations.rs, in MB. */
    | FolderTooLarge(limitMb: nat)
      /** Per-user folder cap of lib.rs. */
    | FolderLimitExceeded
    | DownloadFailed
    | AlbumFolderNotDeleted
    | TemplatesUnavailable

  /** `FileType`'s `Display` with the first letter upper-cased. */
  function KindName(kind: FileType): string {
    match kind
    case Photo => "Photo"
    case Video => "Video"
  }

  /** The message the source attaches to each error. `TemplatesUnavailable`
      passes on the template engine's own message, which is not modelled. */
  function Describe(e: Error): string {
    match e
    case UsernameMissing => "username is not specified"
    case AlbumNotFound => "Album not found!"
    case NoAlbums => "no albums found"
    case NothingGenerated => "no albums have been generated"
    case PostExists => "Post already exists!"
    case FileTooLarge(kind, mb) => KindName(kind) + " file size exceeds " + NatToString(mb) + " MB size limit!"
    case FolderTooLarge(mb) => "User folder cannot exceed " + NatToString(mb) + " MB size limit!"
    case FolderLimitExceeded => "User folder has exceeded the size limit!"
    case DownloadFailed => "error downloading media file"
    case AlbumFolderNotDeleted => "error deleting album folder"
    case TemplatesUnavailable => "template error"
  }

  /** Text framed by the same prefix and suffix determines what lies
      between them. */
  lemma MiddleOf(p: string, m1: string, m2: string, q: string)
    requires p + m1 + q == p + m2 + q
    ensures m1 == m2
  {
    var s := p + m1 + q;
    assert m1 == s[|p|..|p| + |m1|];
    assert m2 == (p + m2 + q)[|p|..|p| + |m2|];
  }

  /** Position of the error's constructor in the declaration. */
  function KindIndex(e: Error): nat {
    match e
    case UsernameMissing => 0
    case AlbumNotFound => 1
    case NoAlbums => 2
    case NothingGenerated => 3
    case PostExists => 4
    case FileTooLarge(_, _) => 5
    case FolderTooLarge(_) => 6
    case FolderLimitExceeded => 7
    case DownloadFailed => 8
    case AlbumFolderNotDeleted => 9
    case TemplatesUnavailable => 10
  }

  /** Reads the constructor back from a message: the characters at
      positions 0, 2, 7, 10 and 12 tell every two kinds apart. */
  function KindOfMessage(s: string): nat {
    if |s| < 13 then 11
    else match s[0]
      case 'u' => 0
      case 'A' => 1
      case 'n' => if s[10] == 'f' then 2 else 3
      case 'P' => if s[2] == 's' then 4 else 5
      case 'V' => 5
      case 'U' => if s[12] == 'c' then 6 else 7
      case 'e' => if s[7] == 'o' then 8 else 9
      case 't' => 10
      case _ => 11
  }

  lemma KindOfDescribe(e: Error)
    ensures KindOfMessage(Describe(e)) == KindIndex(e)
  {
  }

  /** Different errors carry different messages, so the text alone tells
      which error occurred and, for the size caps, which cap was exceeded. */
  lemma DescribeInjective(a: Error, b: Error)
    requires Describe(a) == Describe(b)
    ensures a == b
  {
    KindOfDescribe(a);
    KindOfDescribe(b);
    if a.FileTooLarge? {
      assert a.kind == b.kind by { assert Describe(a)[0] == Describe(b)[0]; }
      MiddleOf(KindName(a.kind) + " file size exceeds ", NatToString(a.limitMb), NatToString(b.limitMb), " MB size limit!");
      ParseNatToString(a.limitMb);
      ParseNatToString(b.limitMb);
    } else if a.FolderTooLarge? {
      MiddleOf("User folder cannot exceed ", NatToString(a.limitMb), NatToString(b.limitMb), " MB size limit!");
      ParseNatToString(a.limitMb);
      ParseNatToString(b.limitMb);
    }
  }

  /** What a command that may rewrite the archive produced: `saved` is the
      archive written back, if any, and `result` is what the command
      returns to the user. */
  datatype Outcome<+A> = Outcome(saved: Option<A>, result: Result<string, Error>)
}
