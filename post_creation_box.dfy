/**
 * The post composer: the checks a post goes through before it is published (something to post,
 * an available moderation service, a moderation answer other than a rejection), the reset of the
 * composer after publishing, the caption prompt and the parsing of the suggested captions, the
 * state of the post button and the greeting on the collapsed box.
 */
module PostCreationBox {
  import opened Wrappers
  import opened Types
  import opened Seqs
  import opened Text
  import opened AuthContext

  /** `attachedImage` is truthy: present and not empty. */
  predicate HasImage(image: Option<string>)
  {
    image.Some? && image.value != ""
  }

  /** What the moderation call came back with: a reply (whose text may be missing) or a failure. */
  datatype Moderation = Answered(reply: Option<string>) | CallFailed

  /** The reply, trimmed and upper-cased, reads `REJECT`. */
  predicate Rejects(m: Moderation)
  {
    m.Answered? && m.reply.Some? && Upper(Trim(m.reply.value)) == "REJECT"
  }

  datatype Decision = Ignored | Failed(error: string) | Blocked(error: string) | Publish(content: string, imageUrl: Option<string>)

  const Unavailable := "AI Services are currently unavailable. Please try again later."
  const ShareFailed := "Failed to share post. Please try again."
  const Violation := "This post violates our Community Standards. Please adjust your message."

  /** `handlePost`, up to the store call: the checks in the order the composer runs them. */
  function PostDecision(text: string, image: Option<string>, aiAvailable: bool, m: Moderation): (r: Decision)
    ensures r.Ignored? <==> IsBlank(text) && !HasImage(image)
    ensures r.Publish? <==> (!IsBlank(text) || HasImage(image)) && aiAvailable && m.Answered? && !Rejects(m)
    ensures r.Publish? ==> r.content == text && (r.imageUrl.Some? <==> HasImage(image)) && (r.imageUrl.Some? ==> r.imageUrl == image)
    ensures r.Blocked? <==> (!IsBlank(text) || HasImage(image)) && aiAvailable && Rejects(m)
    ensures r.Blocked? ==> r.error == Violation
    ensures (!IsBlank(text) || HasImage(image)) && !aiAvailable ==> r == Failed(Unavailable)
    ensures r.Failed? ==> (!aiAvailable && r.error == Unavailable) || (aiAvailable && m.CallFailed? && r.error == ShareFailed)
  {
    if IsBlank(text) && !HasImage(image) then Ignored
    else if !aiAvailable then Failed(Unavailable)
    else if m.CallFailed? then Failed(ShareFailed)
    else if Rejects(m) then Blocked(Violation)
    else Publish(text, if HasImage(image) then image else None)
  }

  /** A rejection is recognised whatever its case and surrounding white space. */
  lemma RejectionIgnoresCaseAndSpace(text: string, image: Option<string>, pad: string, word: string)
    requires !IsBlank(text) || HasImage(image)
    requires forall i :: 0 <= i < |pad| ==> IsSpace(pad[i])
    requires word == "reject" || word == "Reject" || word == "REJECT"
    ensures PostDecision(text, image, true, Answered(Some(pad + word + pad))) == Blocked(Violation)
  {
    PaddedRejects(pad, word);
  }

  lemma PaddedRejects(pad: string, word: string)
    requires forall i :: 0 <= i < |pad| ==> IsSpace(pad[i])
    requires word == "reject" || word == "Reject" || word == "REJECT"
    ensures Rejects(Answered(Some(pad + word + pad)))
  {
    assert !IsSpace(word[0]) && !IsSpace(word[|word| - 1]);
    TrimPadded(pad, word, pad);
    RejectUpper(word);
  }

  lemma RejectUpper(word: string)
    requires word == "reject" || word == "Reject" || word == "REJECT"
    ensures Upper(word) == "REJECT"
  {
    var u := Upper(word);
    assert u[0] == 'R' && u[1] == 'E' && u[2] == 'J' && u[3] == 'E' && u[4] == 'C' && u[5] == 'T';
  }

  /** What the composer holds. */
  datatype Composer = Composer(text: string, image: Option<string>, suggestions: seq<string>, error: Option<string>, modalOpen: bool)

  /** The composer after `handlePost`. */
  function Next(c: Composer, d: Decision): (n: Composer)
    ensures d.Ignored? ==> n == c
    ensures d.Failed? || d.Blocked? ==> n == c.(error := Some(d.error))
    ensures d.Publish? ==> n.text == "" && n.image.None? && n.suggestions == [] && n.error.None? && !n.modalOpen
  {
    match d
    case Ignored => c
    case Failed(e) => c.(error := Some(e))
    case Blocked(e) => c.(error := Some(e))
    case Publish(_, _) => Composer("", None, [], None, false)
  }

  /** `handlePost`: the store gains the post only when the decision is to publish. */
  method HandlePost(store: Store, c: Composer, aiAvailable: bool, m: Moderation, now: nat) returns (next: Composer)
    modifies store
    ensures next == Next(c, PostDecision(c.text, c.image, aiAvailable, m))
    ensures !PostDecision(c.text, c.image, aiAvailable, m).Publish? ==> store.Snapshot() == old(store.Snapshot())
    ensures PostDecision(c.text, c.image, aiAvailable, m).Publish? ==>
      store.Snapshot() == PostStep(old(store.Snapshot()), c.text, PostDecision(c.text, c.image, aiAvailable, m).imageUrl, now)
  {
    var d := PostDecision(c.text, c.image, aiAvailable, m);
    if d.Publish? {
      store.CreatePost(d.content, d.imageUrl, now);
    }
    next := Next(c, d);
  }

  /** The post button's `disabled`. */
  predicate PostButtonDisabled(text: string, image: Option<string>, posting: bool, uploading: bool, generating: bool)
  {
    (IsBlank(text) && !HasImage(image)) || posting || uploading || generating
  }

  /** A press on an enabled button is never ignored. */
  lemma EnabledButtonNotIgnored(text: string, image: Option<string>, aiAvailable: bool, m: Moderation)
    requires !PostButtonDisabled(text, image, false, false, false)
    ensures !PostDecision(text, image, aiAvailable, m).Ignored?
  {
  }

  const ImagePrompt := "Generate 3 short, creative professional network captions for an image."
  const StatusPrompt := "Generate 3 interesting status updates for a social media post."
  const VariationLead := "Generate 3 creative variations of this post: \""

  /** `generateAutoCaptions`' prompt: an image argument wins, then any typed text, then a generic request. */
  function CaptionPrompt(imageArg: Option<string>, text: string): (r: string)
    ensures HasImage(imageArg) ==> r == ImagePrompt
    ensures !HasImage(imageArg) && text == "" ==> r == StatusPrompt
    ensures !HasImage(imageArg) && text != "" ==> Contains(r, text) && |r| > |VariationLead| && r[..|VariationLead|] == VariationLead
    ensures !HasImage(imageArg) && text != "" ==>
      |r| == |VariationLead| + |text| + 1 && r[|VariationLead|..|r| - 1] == text && r[|r| - 1] == '"'
  {
    if HasImage(imageArg) then ImagePrompt
    else if text != "" then
      assert OccursAt(text, text, 0);
      ContainsWithin(VariationLead, text, "\"", text);
      VariationLead + text + "\""
    else StatusPrompt
  }

  /** The suggested captions: the reply split at `|`, each piece trimmed; no reply gives none. */
  function Suggestions(reply: Option<string>): (r: seq<string>)
    ensures reply.None? ==> r == []
    ensures reply.Some? ==> |r| == |Split(reply.value, '|')| && |r| >= 1
    ensures forall i :: 0 <= i < |r| ==> '|' !in r[i] && Trim(r[i]) == r[i]
  {
    if reply.None? then []
    else
      var pieces := Split(reply.value, '|');
      SplitPiecesFree(reply.value, '|');
      forall i | 0 <= i < |pieces| ensures Trim(Trim(pieces[i])) == Trim(pieces[i]) && '|' !in Trim(pieces[i]) {
        TrimIdempotent(pieces[i]);
        TrimKeepsAbsent(pieces[i], '|');
      }
      Map(pieces, Trim)
  }

  /** Trimming never introduces a character. */
  lemma TrimKeepsAbsent(s: string, c: char)
    requires c !in s
    ensures c !in Trim(s)
  {
    var r := Trim(s);
    var k := |s| - |TrimStart(s)|;
    assert r == s[k..k + |r|];
  }

  /** The reply's captions, read in order and joined back with `|`, account for every non-space character of the reply. */
  lemma SuggestionsCoverReply(reply: string)
    ensures var pieces := Split(reply, '|');
      forall i :: 0 <= i < |pieces| ==> Suggestions(Some(reply))[i] == Trim(pieces[i])
    ensures Join(Split(reply, '|'), '|') == reply
  {
    SplitJoin(reply, '|');
  }

  /** Picking a non-empty suggestion makes the text postable. */
  lemma PickedSuggestionPostable(reply: string, i: nat, image: Option<string>)
    requires i < |Suggestions(Some(reply))| && Suggestions(Some(reply))[i] != ""
    ensures !PostButtonDisabled(Suggestions(Some(reply))[i], image, false, false, false)
  {
  }

  /** The collapsed box's greeting: the session user's first name, the part before the first space. */
  function Greeting(name: string): (r: string)
    ensures |r| >= 22 && r[..21] == "What's on your mind, " && r[|r| - 1] == '?'
    ensures var first := r[21..|r| - 1];
      ' ' !in first && |first| <= |name| && first == name[..|first|] && (' ' !in name ==> first == name) &&
      (|first| < |name| ==> name[|first|] == ' ')
  {
    var first := Split(name, ' ')[0];
    SplitFirstPrefix(name, ' ');
    GreetingWholeName(name);
    "What's on your mind, " + first + "?"
  }

  /** A name without a space is its own first name. */
  lemma {:induction false} GreetingWholeName(name: string)
    ensures ' ' !in name ==> Split(name, ' ')[0] == name
  {
    if name != [] && ' ' !in name {
      GreetingWholeName(name[1..]);
      assert name == [name[0]] + name[1..];
    }
  }
}
