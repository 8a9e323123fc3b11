/** generate_image_imagen: one render request per prompt (app.py, lines
    82-92). The image model is abstract: its reply is an input. */
module Render {
  import opened Json

  newtype byte = b: int | 0 <= b < 256
  type Bytes = seq<byte>

  /** What the image API gave back for one request: it raised (client
      construction, transport, quota, safety rejection), or it answered with
      a list of images, possibly empty. */
  datatype ImageReply = ReplyRaised | Images(images: seq<Bytes>)

  /** What one finished render hands to the batch loop: image bytes, None,
      or an exception carried by the future. */
  datatype Outcome = Image(data: Bytes) | NoImage | Raised

  /** Python truthiness of a render result (`if img_bytes:`): only non-empty
      bytes count. */
  predicate Truthy(o: Outcome)
  {
    o.Image? && |o.data| > 0
  }

  /** generate_image_imagen(prompt_text). A prompt that is not a string makes
      `prompt_text + ", ..."` raise, and like every other error that becomes
      None; otherwise the first image of the reply, if any. */
  function RenderImage(prompt: JsonValue, reply: ImageReply): (r: Outcome)
    ensures !r.Raised?
    ensures r.Image? <==> prompt.JString? && reply.Images? && |reply.images| > 0
    ensures r.Image? ==> r.data == reply.images[0]
  {
    if !prompt.JString? then NoImage
    else match reply
      case ReplyRaised => NoImage
      case Images(imgs) => if |imgs| > 0 then Image(imgs[0]) else NoImage
  }
}
