/**
 * The plain-text export of a conversation: a `# title` header, then one
 * `**You**: ` or `**Claude**: ` paragraph per message, in message order.
 * A message without `role` or `content` raises `KeyError` in the middle of
 * writing; the file then holds what was written before it.
 */
module Export {
  import opened Wrappers
  import opened Text
  import opened Clock
  import opened Records

  /** The file's content: complete, or cut short by a message lacking `role` or `content`. */
  datatype ExportOutcome = Written(text: string) | Interrupted(text: string)

  /** `# ` + title (default "Chat") + blank line. */
  function Header(r: Record): string {
    "# " + r.title.GetOr("Chat") + "\n\n"
  }

  function RoleLabel(role: string): string {
    if role == "user" then "You" else "Claude"
  }

  predicate Exportable(m: Message) {
    m.role.Some? && m.content.Some?
  }

  function MessageLine(m: Message): string
    requires Exportable(m)
  {
    "**" + RoleLabel(m.role.value) + "**: " + m.content.value + "\n\n"
  }

  /** The text written for `ms`, stopping at the first message that cannot be written; `complete` says whether none stopped it. */
  datatype Rendered = Rendered(text: string, complete: bool)

  function RenderMessages(ms: seq<Message>): Rendered
    decreases |ms|
  {
    if ms == [] then Rendered("", true)
    else if !Exportable(ms[0]) then Rendered("", false)
    else
      var rest := RenderMessages(ms[1..]);
      Rendered(MessageLine(ms[0]) + rest.text, rest.complete)
  }

  /** The text export of `r`: complete exactly when every message has a role and a content, and always headed by `Header(r)`. */
  function ExportText(r: Record): (e: ExportOutcome)
    ensures e.Written? <==> forall i :: 0 <= i < |r.messages.GetOr([])| ==> Exportable(r.messages.GetOr([])[i])
    ensures IsPrefix(Header(r), e.text)
  {
    var body := RenderMessages(r.messages.GetOr([]));
    RenderCompleteIff(r.messages.GetOr([]));
    if body.complete then Written(Header(r) + body.text) else Interrupted(Header(r) + body.text)
  }

  /** The export is complete exactly when every message has a role and a content. */
  lemma {:induction false} RenderCompleteIff(ms: seq<Message>)
    ensures RenderMessages(ms).complete <==> forall i :: 0 <= i < |ms| ==> Exportable(ms[i])
    decreases |ms|
  {
    if ms != [] {
      RenderCompleteIff(ms[1..]);
      assert forall i :: 1 <= i < |ms| ==> ms[i] == ms[1..][i - 1];
    }
  }

  /** String concatenation regrouped, for the rendering proofs below. */
  lemma AppendAssociative(x: string, y: string, z: string)
    ensures (x + y) + z == x + (y + z)
  {
  }

  lemma UnfoldRender(ms: seq<Message>)
    requires ms != []
    ensures RenderMessages(ms) == if !Exportable(ms[0]) then Rendered("", false)
      else Rendered(MessageLine(ms[0]) + RenderMessages(ms[1..]).text, RenderMessages(ms[1..]).complete)
  {
  }

  /** Messages render one after the other: the text for `a + b` is the text for `a` followed by the text for `b`. */
  lemma {:induction false} RenderConcat(a: seq<Message>, b: seq<Message>)
    requires RenderMessages(a).complete
    ensures RenderMessages(a + b) == Rendered(RenderMessages(a).text + RenderMessages(b).text, RenderMessages(b).complete)
    decreases |a|
  {
    if a == [] {
      assert a + b == b;
    } else {
      var ab := a + b;
      assert ab[0] == a[0] && ab[1..] == a[1..] + b;
      UnfoldRender(a);
      UnfoldRender(ab);
      RenderConcat(a[1..], b);
      AppendAssociative(MessageLine(a[0]), RenderMessages(a[1..]).text, RenderMessages(b).text);
    }
  }

  /** Appending a user message to an exportable conversation adds exactly one `**You**: ` paragraph at the end. */
  lemma ExportAfterUserMessage(r: Record, content: string, now: Instant)
    requires r.messages.Some? && ExportText(r).Written?
    ensures ExportText(WithUserMessage(r, content, now))
            == Written(ExportText(r).text + ("**You**: " + content + "\n\n"))
  {
    var ms := r.messages.value;
    var m := UserMessage(content, now);
    var line := MessageLine(m);
    assert line == "**You**: " + content + "\n\n";
    RenderConcat(ms, [m]);
    UnfoldRender([m]);
    assert [m][1..] == [];
    assert RenderMessages([m]) == Rendered(line, true) by {
      assert line + "" == line;
    }
    assert RenderMessages(ms + [m]) == Rendered(RenderMessages(ms).text + line, true);
    assert WithUserMessage(r, content, now).messages.value == ms + [m];
    AppendAssociative(Header(r), RenderMessages(ms).text, line);
  }

  /** A cleared conversation exports as its header alone. */
  lemma ExportAfterClear(r: Record)
    ensures ExportText(r.(messages := Some([]))) == Written(Header(r))
  {
    assert Header(r) + "" == Header(r);
  }

  /**
   * An interrupted export holds the header and the paragraphs of the messages
   * before the first message lacking `role` or `content`, and nothing else.
   */
  lemma {:induction false} RenderStopsAtFirstBadMessage(ms: seq<Message>)
    requires !RenderMessages(ms).complete
    ensures exists k :: 0 <= k < |ms| && !Exportable(ms[k])
                        && (forall j :: 0 <= j < k ==> Exportable(ms[j]))
                        && RenderMessages(ms[..k]) == Rendered(RenderMessages(ms).text, true)
    decreases |ms|
  {
    if !Exportable(ms[0]) {
      assert ms[..0] == [];
    } else {
      RenderStopsAtFirstBadMessage(ms[1..]);
      var k :| 0 <= k < |ms[1..]| && !Exportable(ms[1..][k])
               && (forall j :: 0 <= j < k ==> Exportable(ms[1..][j]))
               && RenderMessages(ms[1..][..k]) == Rendered(RenderMessages(ms[1..]).text, true);
      assert ms[..k + 1][0] == ms[0] && ms[..k + 1][1..] == ms[1..][..k];
      assert !Exportable(ms[k + 1]);
      assert forall j :: 0 <= j < k + 1 ==> Exportable(ms[j]) by {
        forall j | 0 < j < k + 1 ensures Exportable(ms[j]) {
          assert ms[j] == ms[1..][j - 1];
        }
      }
    }
  }

  /** The export loop of `export_chat`: write the header, then one paragraph per message until one lacks a key. */
  method ExportChat(r: Record) returns (written: string, ok: bool)
    ensures ok ==> ExportText(r) == Written(written)
    ensures !ok ==> ExportText(r) == Interrupted(written)
  {
    var ms := r.messages.GetOr([]);
    written := Header(r);
    ok := true;
    var i := 0;
    while i < |ms|
      invariant 0 <= i <= |ms|
      invariant RenderMessages(ms[..i]).complete
      invariant written == Header(r) + RenderMessages(ms[..i]).text
    {
      var m := ms[i];
      RenderConcat(ms[..i], [m]);
      assert ms[..i] + [m] == ms[..i + 1];
      if !Exportable(m) {
        RenderConcat(ms[..i], ms[i..]);
        assert ms[..i] + ms[i..] == ms;
        ok := false;
        return;
      }
      UnfoldRender([m]);
      assert [m][1..] == [];
      assert MessageLine(m) + "" == MessageLine(m);
      AppendAssociative(Header(r), RenderMessages(ms[..i]).text, MessageLine(m));
      written := written + MessageLine(m);
      i := i + 1;
    }
    assert ms[..i] == ms;
  }
}
