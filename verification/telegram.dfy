/** The parts of an incoming Telegram message the archive engine reads.
    The transport itself (fetching and downloading files) is not part of
    this model; its outcomes are passed to the operations as inputs. */
module Telegram {
  import opened Base

  /** The chat a message was forwarded from. */
  datatype Chat = Chat(id: int, title: Option<string>, description: Option<string>, username: Option<string>)

  /** One resolution of a photo; `size` is the file's size in bytes. */
  datatype PhotoSize = PhotoSize(fileId: string, width: U32, height: U32, size: U32)

  /** A video with its declared media type, e.g. "video/mp4". */
  datatype Video = Video(fileId: string, mimeType: Option<string>, size: U32)

  /** `date` and `forwardDate` are the timestamps already rendered as the
      strings stored in the archive. */
  datatype Message = Message(
    id: int,
    date: string,
    forwardFromChat: Option<Chat>,
    forwardFromMessageId: Option<int>,
    forwardDate: Option<string>,
    text: Option<string>,
    caption: Option<string>,
    photo: Option<seq<PhotoSize>>,
    video: Option<Video>)

  /** The only video type that is stored. */
  const MP4: string := "video/mp4"

  /** The album a message belongs to: the id of the chat it was forwarded
      from, 0 when it was not forwarded from a chat. */
  function AlbumIdOf(msg: Message): int {
    match msg.forwardFromChat
    case Some(chat) => chat.id
    case None => 0
  }

  /** `width * height` computed in `u32`. */
  function Area(p: PhotoSize): U32 {
    MulWrap(p.width, p.height)
  }

  /** Index of the photo `max_by_key(width * height)` returns: one of
      largest area, and of several equally large the last. */
  function LargestPhoto(photos: seq<PhotoSize>): (r: Option<nat>)
    ensures r.None? <==> |photos| == 0
    ensures r.Some? ==> r.value < |photos|
    ensures r.Some? ==> forall j :: 0 <= j < |photos| ==> Area(photos[j]) <= Area(photos[r.value])
    ensures r.Some? ==> forall j :: r.value < j < |photos| ==> Area(photos[j]) < Area(photos[r.value])
    decreases |photos|
  {
    if |photos| == 0 then None
    else
      var last := |photos| - 1;
      match LargestPhoto(photos[..last])
      case None => Some(last)
      case Some(k) => if Area(photos[last]) >= Area(photos[k]) then Some(last) else Some(k)
  }
}
