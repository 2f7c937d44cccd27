/**
 * The string rules of the mail client (mail/static/mail/inbox.js): what
 * the reply button pre-fills, what the archive button sends and says,
 * the mailbox heading and the colour of a mailbox row. Everything else
 * in that script drives the page and the server API.
 */
module MailInbox {
  import opened Text

  /** The fields of an email as the API returns them. */
  datatype Email = Email(sender: string, subject: string, body: string, timestamp: string, read: bool, archived: bool)

  /** The compose form's three fields. */
  datatype Compose = Compose(recipients: string, subject: string, body: string)

  const ReplyPrefix := "Re: "
  const ReplyMarker := "Re:"

  /** The reply subject: "Re: " is added unless "Re:" already occurs anywhere in the subject. */
  function ReplySubject(subject: string): (r: string)
    ensures Contains(subject, ReplyMarker) ==> r == subject
    ensures !Contains(subject, ReplyMarker) ==> r == ReplyPrefix + subject
    ensures Contains(r, ReplyMarker)
  {
    if Contains(subject, ReplyMarker) then subject
    else
      assert IsPrefix(ReplyMarker, ReplyPrefix + subject);
      ReplyPrefix + subject
  }

  /** Replying to a reply does not stack another prefix. */
  lemma ReplySubjectIdempotent(subject: string)
    ensures ReplySubject(ReplySubject(subject)) == ReplySubject(subject)
  {
  }

  /** The reply body: "On <timestamp>, <sender> wrote: <body>". */
  function QuotedBody(timestamp: string, sender: string, body: string): (r: string)
  {
    "On " + timestamp + ", " + sender + " wrote: " + body
  }

  /** The quoted body starts with "On ", the timestamp follows, and it ends with the original body unchanged. */
  lemma QuotedBodyParts(timestamp: string, sender: string, body: string)
    ensures var r := QuotedBody(timestamp, sender, body);
      && |r| == |timestamp| + |sender| + |body| + 13
      && r[..3] == "On "
      && r[3..3 + |timestamp|] == timestamp
      && r[3 + |timestamp|..5 + |timestamp|] == ", "
      && r[5 + |timestamp|..5 + |timestamp| + |sender|] == sender
      && r[5 + |timestamp| + |sender|..13 + |timestamp| + |sender|] == " wrote: "
      && r[13 + |timestamp| + |sender|..] == body
  {
    var r := QuotedBody(timestamp, sender, body);
    var t, n := |timestamp|, |sender|;
    assert r == "On " + timestamp + ", " + sender + " wrote: " + body;
    assert r[..3] == "On ";
    assert r[3..3 + t] == timestamp;
    assert r[3 + t..5 + t] == ", ";
    assert r[5 + t..5 + t + n] == sender;
    assert r[5 + t + n..13 + t + n] == " wrote: ";
    assert r[13 + t + n..] == body;
  }

  /** What the reply button writes into the compose form. */
  function ReplyPrefill(e: Email): (c: Compose)
    ensures c.recipients == e.sender
    ensures c.subject == ReplySubject(e.subject)
    ensures c.body == QuotedBody(e.timestamp, e.sender, e.body)
  {
    Compose(e.sender, ReplySubject(e.subject), QuotedBody(e.timestamp, e.sender, e.body))
  }

  /** The `archived` value the archive button sends: the opposite of the current one. */
  function ArchiveRequest(e: Email): (archived: bool)
    ensures archived != e.archived
  {
    !e.archived
  }

  /** The archive button's label. */
  function ArchiveLabel(e: Email): (text: string)
    ensures text == "Unarchive" <==> e.archived
    ensures text == "Archive" <==> !e.archived
  {
    if e.archived then "Unarchive" else "Archive"
  }

  /** Pressing the button and reloading the email shows the other label, and pressing it again restores the flag. */
  lemma ArchiveToggles(e: Email)
    ensures ArchiveLabel(e.(archived := ArchiveRequest(e))) != ArchiveLabel(e)
    ensures ArchiveRequest(e.(archived := ArchiveRequest(e))) == e.archived
  {
  }

  /** The mailbox heading: the first character upper-cased, the rest as it is. */
  function Heading(mailbox: string): (h: string)
    ensures |h| == |mailbox|
    ensures |mailbox| > 0 ==> h[0] == UpperChar(mailbox[0]) && h[1..] == mailbox[1..]
  {
    if mailbox == [] then [] else [UpperChar(mailbox[0])] + mailbox[1..]
  }

  /** Capitalising a heading twice changes nothing more. */
  lemma HeadingIdempotent(mailbox: string)
    ensures Heading(Heading(mailbox)) == Heading(mailbox)
  {
  }

  datatype Colour = White | Grey   // "white" and "#D3D3D3"

  /** A mailbox row is white when the email has been read, grey otherwise. */
  function RowColour(e: Email): (c: Colour)
    ensures c == White <==> e.read
  {
    if e.read then White else Grey
  }
}
