/** The client credential that both token fetchers send as `Basic` authorization:
    the user-pass text of section 2 of RFC 7617, `user-id ":" password`.
    Its base64 encoding is a library call and is not part of this model. */
module Credentials {
  import opened Http

  /** `${client_id}:${client_secret}` */
  function UserPass(clientId: string, clientSecret: string): (text: string)
    ensures |text| == |clientId| + 1 + |clientSecret|
    ensures text[|clientId|] == ':'
    ensures text[..|clientId|] == clientId && text[|clientId| + 1..] == clientSecret
  {
    clientId + ":" + clientSecret
  }

  /** What a template literal writes for a value that may be `undefined`. */
  function TemplateText(v: Option<string>): string {
    match v
    case None => "undefined"
    case Some(s) => s
  }

  /** How a receiver reads user-pass text back (section 2 of RFC 7617): the
      user-id ends at the first colon, the password is everything after it. */
  function SplitUserPass(text: string): Option<(string, string)>
  {
    if text == [] then None
    else if text[0] == ':' then Some(([], text[1..]))
    else match SplitUserPass(text[1..])
      case None => None
      case Some(parts) => Some(([text[0]] + parts.0, parts.1))
  }

  /** RFC 7617 forbids a colon in the user-id; any such id survives the round trip,
      whatever the secret holds. */
  lemma {:induction false} SplitUserPassRoundTrip(clientId: string, clientSecret: string)
    requires forall i :: 0 <= i < |clientId| ==> clientId[i] != ':'
    ensures SplitUserPass(UserPass(clientId, clientSecret)) == Some((clientId, clientSecret))
  {
    if clientId != [] {
      var text := UserPass(clientId, clientSecret);
      assert text[0] == clientId[0] != ':';
      assert text[1..] == UserPass(clientId[1..], clientSecret);
      SplitUserPassRoundTrip(clientId[1..], clientSecret);
      assert [clientId[0]] + clientId[1..] == clientId;
    }
  }

  /** A user-id that contains a colon does not survive: the receiver cuts it at
      the colon. */
  lemma ColonInIdIsMisread()
    ensures SplitUserPass(UserPass("a:b", "c")) == Some(("a", "b:c"))
  {
    var text := UserPass("a:b", "c");
    assert text == "a:b:c";
    assert text[1..] == ":b:c";
    assert text[1..][1..] == "b:c";
    assert SplitUserPass(text[1..]) == Some(([], "b:c"));
    assert text[0] == 'a' != ':';
    assert SplitUserPass(text) == Some((['a'] + [], "b:c"));
    assert ['a'] + [] == "a";
  }
}
