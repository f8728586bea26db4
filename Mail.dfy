/**
 * The notification mail: its body (`buildEmailBody`), the RFC 822 message
 * `sendNotificationEmail` assembles around it, and the encoded form it hands
 * to Gmail. Lines are joined with a bare "\n", as the server does.
 */
module Mail {
  import opened Wrappers
  import opened Text
  import opened Js
  import opened Payload
  import opened Translate
  import opened Encoding

  const Intro := "New Ayurveda intake received."
  const SubjectPrefix := "L'VEDA Intake "
  const ContentType := "Content-Type: text/plain; charset=\"UTF-8\""
  const MissingSender := "Missing GMAIL_SENDER"

  /** `safeStr(risk_flags) || 'None'`: the flags line never reads blank. */
  function ShownFlags(t: Translation): (r: string)
    ensures r != ""
    ensures SafeStr(Str(t.flags)) != "" ==> r == SafeStr(Str(t.flags))
    ensures SafeStr(Str(t.flags)) == "" ==> r == "None"
  {
    var flags := SafeStr(Str(t.flags));
    if flags != "" then flags else "None"
  }

  /** The lines of the body, in order. */
  function BodyLines(id: string, flags: string, summary: string, full: string): (lines: seq<string>)
    ensures |lines| == 10
  {
    [Intro, "", "Submission ID: " + id, "Risk Flags: " + flags, "",
     "Summary:", summary, "", "Full Detail:", full]
  }

  function BuildEmailBody(id: string, t: Translation): string
  {
    Join(BodyLines(id, ShownFlags(t), t.summary, t.full), "\n")
  }

  /** The header lines and the blank line that ends them. */
  function HeaderLines(sender: string, id: string): (lines: seq<string>)
    ensures |lines| == 5
  {
    ["From: " + sender, "To: " + sender, ContentType, "Subject: " + SubjectPrefix + id, ""]
  }

  /** The message text: headers, a blank line, then the body. */
  function MessageText(sender: string, id: string, body: string): string
  {
    Join(HeaderLines(sender, id) + [body], "\n")
  }

  function Message(sender: string, id: string, t: Translation): string
  {
    MessageText(sender, id, BuildEmailBody(id, t))
  }

  /** `sendNotificationEmail` up to the send call: the text it passes as `raw`,
      or the error it throws when there is no sender. */
  function NotificationRaw(sender: string, id: string, t: Translation): (r: Result<string>)
    ensures r.Err? <==> sender == ""
    ensures r.Err? ==> r.message == MissingSender
  {
    if sender == "" then Err(MissingSender)
    else Ok(EncodeMessage(Message(sender, id, t)))
  }

  /** The summary and the full text appear in the body whole, on lines of
      their own: the summary right after the "Summary:" line, the full text
      at the very end. */
  lemma BodyCarriesTranslation(id: string, flags: string, summary: string, full: string)
    ensures var body := Join(BodyLines(id, flags, summary, full), "\n");
      && Contains(body, "Summary:\n" + summary + "\n")
      && |full| + 1 <= |body| && body[|body| - |full| - 1..] == "\n" + full
  {
    var lines := BodyLines(id, flags, summary, full);
    var body := Join(lines, "\n");
    var front := Join(lines[..5], "\n") + "\n";
    var back := "\n" + Join(lines[7..], "\n");
    assert lines[5..] == ["Summary:", summary] + lines[7..];
    JoinAppend(lines[..5], lines[5..], "\n");
    JoinAppend(["Summary:", summary], lines[7..], "\n");
    assert lines[..5] + lines[5..] == lines;
    assert body == front + ("Summary:\n" + summary + "\n") + Join(lines[7..], "\n");
    ContainsMiddle(front, "Summary:\n" + summary + "\n", Join(lines[7..], "\n"));
    assert lines[..9] + [full] == lines;
    JoinAppend(lines[..9], [full], "\n");
  }

  /** Read line by line, the body gives back its first six lines exactly
      (the summary and full text may hold line breaks of their own). */
  lemma BodyReadsBack(id: string, flags: string, summary: string, full: string)
    requires '\n' !in id && '\n' !in flags
    ensures var lines := Split(Join(BodyLines(id, flags, summary, full), "\n"), '\n');
      && |lines| > 6
      && lines[..6] == [Intro, "", "Submission ID: " + id, "Risk Flags: " + flags, "", "Summary:"]
  {
    var lines := BodyLines(id, flags, summary, full);
    LineFree("Submission ID: ", id);
    LineFree("Risk Flags: ", flags);
    assert '\n' !in Intro && '\n' !in "Summary:";
    assert lines[..6] == [Intro, "", "Submission ID: " + id, "Risk Flags: " + flags, "", "Summary:"];
    SplitJoinPrefix(lines, '\n', 6);
  }

  /** With single-line summary and full text, every line reads back. */
  lemma BodyRoundTrip(id: string, flags: string, summary: string, full: string)
    requires '\n' !in id && '\n' !in flags && '\n' !in summary && '\n' !in full
    ensures Split(Join(BodyLines(id, flags, summary, full), "\n"), '\n') == BodyLines(id, flags, summary, full)
  {
    var lines := BodyLines(id, flags, summary, full);
    LineFree("Submission ID: ", id);
    LineFree("Risk Flags: ", flags);
    assert '\n' !in Intro && '\n' !in "Summary:" && '\n' !in "Full Detail:";
    SplitJoin(lines, '\n');
  }

  /** A label glued to a value holds no line break when neither does. */
  lemma LineFree(tag: string, text: string)
    requires '\n' !in tag && '\n' !in text
    ensures '\n' !in tag + text
  {
  }

  /** The message is the header block, an empty line, and the body as given. */
  lemma MessageLayout(sender: string, id: string, body: string)
    ensures MessageText(sender, id, body) == Join(HeaderLines(sender, id)[..4], "\n") + "\n\n" + body
  {
    var h := HeaderLines(sender, id);
    assert h + [body] == h[..4] + ["", body];
    JoinAppend(h[..4], ["", body], "\n");
  }

  /** A body given as lines makes the message one list of lines. */
  lemma MessageLines(sender: string, id: string, b: seq<string>)
    requires b != []
    ensures MessageText(sender, id, Join(b, "\n")) == Join(HeaderLines(sender, id) + b, "\n")
  {
    var h := HeaderLines(sender, id);
    JoinAppend(h, [Join(b, "\n")], "\n");
    JoinAppend(h, b, "\n");
  }

  /** The fixed texts of the message are single lines. */
  lemma FixedTextsSingleLine()
    ensures '\n' !in ContentType && '\n' !in Intro && '\n' !in "Summary:"
    ensures '\n' !in "From: " && '\n' !in "To: " && '\n' !in "Subject: " + SubjectPrefix
    ensures '\n' !in "Submission ID: " && '\n' !in "Risk Flags: "
  {
    HeaderTextsSingleLine();
    BodyTextsSingleLine();
  }

  lemma HeaderTextsSingleLine()
    ensures '\n' !in ContentType
    ensures '\n' !in "From: " && '\n' !in "To: " && '\n' !in "Subject: " + SubjectPrefix
  {
    assert forall i :: 0 <= i < |SubjectPrefix| ==> SubjectPrefix[i] != '\n';
    assert forall i :: 0 <= i < |ContentType| ==> ContentType[i] != '\n';
  }

  lemma BodyTextsSingleLine()
    ensures '\n' !in Intro && '\n' !in "Summary:"
    ensures '\n' !in "Submission ID: " && '\n' !in "Risk Flags: "
  {
    assert forall i :: 0 <= i < |Intro| ==> Intro[i] != '\n';
  }

  /** The first eleven lines of the message hold no line break of their own. */
  lemma LeadingLinesFree(sender: string, id: string, flags: string, summary: string, full: string)
    requires '\n' !in sender && '\n' !in id && '\n' !in flags
    ensures var all := HeaderLines(sender, id) + BodyLines(id, flags, summary, full);
      forall x <- all[..11] :: '\n' !in x
  {
    FixedTextsSingleLine();
    var from, to, subject := "From: " + sender, "To: " + sender, "Subject: " + SubjectPrefix + id;
    var idLine, flagLine := "Submission ID: " + id, "Risk Flags: " + flags;
    LineFree("From: ", sender);
    LineFree("To: ", sender);
    LineFree("Subject: " + SubjectPrefix, id);
    LineFree("Submission ID: ", id);
    LineFree("Risk Flags: ", flags);
    var all := HeaderLines(sender, id) + BodyLines(id, flags, summary, full);
    var lead := [from, to, ContentType, subject, "", Intro, "", idLine, flagLine, "", "Summary:"];
    assert all[..11] == lead;
  }

  /** Read line by line, the message gives back its four headers and the
      blank line, followed by the body's first six lines. */
  lemma MessageReadsBack(sender: string, id: string, flags: string, summary: string, full: string)
    requires '\n' !in sender && '\n' !in id && '\n' !in flags
    ensures var lines := Split(MessageText(sender, id, Join(BodyLines(id, flags, summary, full), "\n")), '\n');
      |lines| > 11 && lines[..11] == HeaderLines(sender, id) + BodyLines(id, flags, summary, full)[..6]
  {
    var b := BodyLines(id, flags, summary, full);
    var all := HeaderLines(sender, id) + b;
    assert all[..11] == HeaderLines(sender, id) + b[..6];
    MessageLines(sender, id, b);
    LeadingLinesFree(sender, id, flags, summary, full);
    SplitJoinPrefix(all, '\n', 11);
  }

  /** What Gmail receives decodes back to the message, byte for byte. */
  lemma SentMessageDecodes(sender: string, id: string, t: Translation)
    requires sender != ""
    ensures var raw := NotificationRaw(sender, id, t).value;
      var bytes := FromBase64Url(raw);
      && (forall c <- raw :: IsUrlDigit(c))
      && bytes.Some? && Utf8Decode(bytes.value) == Some(Message(sender, id, t))
  {
    MessageRoundTrip(Message(sender, id, t));
    Base64UrlAlphabet(Utf8Encode(Message(sender, id, t)));
  }
}
