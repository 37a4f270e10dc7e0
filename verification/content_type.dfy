/** Classification of the image response by its `Content-Type` header alone. */
module ContentType {
  import opened Wrappers

  const MISSING_CONTENT_TYPE_MESSAGE := "Response header Content-Type cannot be None\n"
  const UNSUPPORTED_PREFIX := "Unsupported Content-Type: "

  /**
   * The file suffix chosen for a content type: JPEG and PNG are accepted,
   * anything else is rejected. The header value is compared exactly, so
   * `image/jpeg; charset=...` or `IMAGE/PNG` is rejected too.
   */
  function SuffixFor(contentType: string): (suffix: Option<string>)
    ensures suffix == Some(".jpg") <==> contentType == "image/jpeg"
    ensures suffix == Some(".png") <==> contentType == "image/png"
    ensures suffix == None || suffix == Some(".jpg") || suffix == Some(".png")
  {
    if contentType == "image/jpeg" then Some(".jpg")
    else if contentType == "image/png" then Some(".png")
    else None
  }

  /** The error text for a content type that is present but not accepted. */
  function UnsupportedMessage(contentType: string): (message: string)
    ensures |message| == |UNSUPPORTED_PREFIX| + |contentType| + 1
    ensures message[..|UNSUPPORTED_PREFIX|] == UNSUPPORTED_PREFIX
    ensures message[|UNSUPPORTED_PREFIX|..|message| - 1] == contentType
    ensures message[|message| - 1] == '\n'
  {
    UNSUPPORTED_PREFIX + contentType + "\n"
  }

  /** The two rejection messages can always be told apart, and the second names the type. */
  lemma RejectionMessagesDistinct(a: string, b: string)
    ensures UnsupportedMessage(a) != MISSING_CONTENT_TYPE_MESSAGE
    ensures UnsupportedMessage(a) == UnsupportedMessage(b) ==> a == b
  {
    assert UnsupportedMessage(a)[0] == 'U';
    assert MISSING_CONTENT_TYPE_MESSAGE[0] == 'R';
  }
}
