/** The shared log-block formatter `_print_log`: which fields a block
    shows, how message content is truncated, and when formatting raises. */
module LogFormat {
  import opened Outcomes
  import opened Values
  import opened Text
  import opened Settings

  /** The `log_type` of a block. */
  datatype Tag = InletTag | OutletTag

  /** One printed block, with the values of its lines: the identity's
      email and role, the model id, the message's role and (possibly
      truncated) content, and the identity dump printed for INLET blocks
      when `log_user_info` is set. */
  datatype Block = Block(
    tag: Tag,
    email: Value,
    userRole: Value,
    modelId: Value,
    messageRole: Value,
    content: Value,
    userDetail: Option<Dict>)

  const MarkerHead := "... [truncated, "
  const MarkerTail := " chars omitted]"

  /** The text appended in place of `omitted` dropped characters. */
  function OmissionMarker(omitted: nat): string
  {
    MarkerHead + NatToString(omitted) + MarkerTail
  }

  /** Reads the omitted count back out of a marker. */
  function ParseOmissionMarker(t: string): Option<nat>
  {
    if |t| >= |MarkerHead| + |MarkerTail|
       && t[..|MarkerHead|] == MarkerHead
       && t[|t| - |MarkerTail|..] == MarkerTail
    then ParseNat(t[|MarkerHead|..|t| - |MarkerTail|])
    else None
  }

  lemma ParseOmissionMarkerInverts(omitted: nat)
    ensures ParseOmissionMarker(OmissionMarker(omitted)) == Some(omitted)
  {
    var m := OmissionMarker(omitted);
    assert m[|MarkerHead|..|m| - |MarkerTail|] == NatToString(omitted);
    ParseNatToString(omitted);
  }

  /** Truncation of string content to `limit` characters. */
  function Truncate(s: string, limit: int): (r: string)
    ensures limit <= 0 || |s| <= limit ==> r == s
    ensures 0 < limit < |s| ==> |r| > limit && r[..limit] == s[..limit]
  {
    if limit > 0 && |s| > 0 && |s| > limit then
      s[..limit] + OmissionMarker(|s| - limit)
    else s
  }

  /** A truncated text loses nothing a reader cannot account for: its first
      `limit` characters are the original's, and the marker after them
      states exactly how many characters followed. */
  lemma TruncationAccountsForOmitted(s: string, limit: int)
    requires 0 < limit < |s|
    ensures Truncate(s, limit)[..limit] == s[..limit]
    ensures ParseOmissionMarker(Truncate(s, limit)[limit..]) == Some(|s| - limit)
    ensures limit + ParseOmissionMarker(Truncate(s, limit)[limit..]).value == |s|
  {
    var r := Truncate(s, limit);
    assert r[limit..] == OmissionMarker(|s| - limit);
    ParseOmissionMarkerInverts(|s| - limit);
  }

  /** Ten characters kept of twenty-five: the marker reports fifteen. */
  lemma TruncateTenOfTwentyFive(s: string)
    requires |s| == 25
    ensures Truncate(s, 10) == s[..10] + "... [truncated, 15 chars omitted]"
  {
    assert DigitChar(1) == '1' && DigitChar(5) == '5';
    assert NatToString(15) == NatToString(1) + [DigitChar(5)] == "15";
    assert OmissionMarker(15) == "... [truncated, 15 chars omitted]";
  }

  /** Lines 82-87 applied to a content value of any type: truncation only
      looks at truthy content, and `len()` of a value without a length, or
      slicing a non-string and appending the marker to it, raises. */
  function TruncateContent(content: Value, limit: int): (r: Try<Value>)
    ensures r.Raise? <==> limit > 0 && Truthy(content) && !content.PyStr?
                          && (Len(content).None? || Len(content).value > limit)
    ensures r.Ok? && !content.PyStr? ==> r.value == content
    ensures content.PyStr? ==> r == Ok(PyStr(Truncate(content.s, limit)))
    ensures limit <= 0 || !Truthy(content) ==> r == Ok(content)
  {
    if limit > 0 && Truthy(content) then
      match Len(content)
      case None => Raise
      case Some(n) =>
        if n <= limit then Ok(content)
        else if content.PyStr? then Ok(PyStr(Truncate(content.s, limit)))
        else Raise
    else Ok(content)
  }

  /** The block `_print_log` prints for `message`, or Raise when formatting
      it raises (a message that is not a dict has no `get`). */
  function PrintLog(valves: Valves, tag: Tag, userInfo: Dict, modelId: Value, message: Value): (r: Try<Block>)
    ensures r.Raise? <==> (!message.PyDict?
              || TruncateContent(Get(message.fields, "content", PyStr("")), valves.truncateMessage).Raise?)
    ensures r.Ok? ==> r.value.tag == tag && r.value.modelId == modelId
    ensures r.Ok? ==> (r.value.userDetail.Some? <==> tag == InletTag && valves.logUserInfo)
    ensures r.Ok? && r.value.userDetail.Some? ==> r.value.userDetail.value == userInfo
    ensures r.Ok? ==> ("email" !in userInfo ==> r.value.email == NA)
                      && ("email" in userInfo ==> r.value.email == userInfo["email"])
    ensures r.Ok? ==> ("role" !in userInfo ==> r.value.userRole == NA)
                      && ("role" in userInfo ==> r.value.userRole == userInfo["role"])
    ensures r.Ok? ==> ("role" !in message.fields ==> r.value.messageRole == NA)
                      && ("role" in message.fields ==> r.value.messageRole == message.fields["role"])
    ensures r.Ok? && "content" !in message.fields ==> r.value.content == PyStr("")
    ensures r.Ok? && "content" in message.fields && message.fields["content"].PyStr? ==>
              r.value.content == PyStr(Truncate(message.fields["content"].s, valves.truncateMessage))
  {
    if !message.PyDict? then Raise
    else
      match TruncateContent(Get(message.fields, "content", PyStr("")), valves.truncateMessage)
      case Raise => Raise
      case Ok(content) =>
        Ok(Block(
          tag := tag,
          email := Get(userInfo, "email", NA),
          userRole := Get(userInfo, "role", NA),
          modelId := modelId,
          messageRole := Get(message.fields, "role", NA),
          content := content,
          userDetail := if tag == InletTag && valves.logUserInfo then Some(userInfo) else None))
  }
}
