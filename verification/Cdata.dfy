/**
  The CDATA writer of the WeCom reply (internal/api/http/agent.go) against a reader of adjacent CDATA sections,
  each ending at its first "]]>" (section 2.7 of XML 1.0).
  */
module Cdata {
  import opened Outcomes

  const CD_START := "<![CDATA["
  const CD_END := "]]>"

  function ReplaceAll(s: string, pattern: string, replacement: string): string
    requires pattern != ""
  {
    if s == "" then ""
    else if pattern <= s then replacement + ReplaceAll(s[|pattern|..], pattern, replacement)
    else [s[0]] + ReplaceAll(s[1..], pattern, replacement)
  }

  function CdataSafe(value: string): string {
    ReplaceAll(value, CD_END, "]]]]><![CDATA[>")
  }

  // ----- The reader -----

  predicate EndAt(s: string, i: nat) {
    i + 3 <= |s| && s[i] == ']' && s[i + 1] == ']' && s[i + 2] == '>'
  }

  /** The position of the first "]]>", or the length when there is none. */
  function FirstEnd(s: string): (i: nat)
    ensures i <= |s| && (i < |s| ==> EndAt(s, i)) && forall j :: 0 <= j < i ==> !EndAt(s, j)
    ensures i == |s| ==> forall j :: 0 <= j < |s| ==> !EndAt(s, j)
  {
    if s == "" then 0
    else if EndAt(s, 0) then 0
    else
      var i := 1 + FirstEnd(s[1..]);
      assert forall j :: 1 <= j <= |s| ==> (EndAt(s, j) <==> EndAt(s[1..], j - 1));
      i
  }

  /** One or more adjacent CDATA sections: their concatenated contents and what follows them. */
  function ReadSections(s: string): Option<(string, string)>
    decreases |s|
  {
    if !(CD_START <= s) then None
    else
      var body := s[|CD_START|..];
      var end := FirstEnd(body);
      if end == |body| then None
      else
        var content, rest := body[..end], body[end + 3..];
        if !(CD_START <= rest) then Some((content, rest))
        else
          match ReadSections(rest)
          case None => None
          case Some(more) => Some((content + more.0, more.1))
  }

  // ----- Round trip -----

  lemma FirstEndIs(s: string, i: nat)
    requires EndAt(s, i) && forall j :: 0 <= j < i ==> !EndAt(s, j)
    ensures FirstEnd(s) == i
  {
  }

  lemma {:induction false} ReplaceNothing(v: string)
    requires forall j :: 0 <= j < |v| ==> !EndAt(v, j)
    ensures CdataSafe(v) == v
  {
    if v != "" {
      assert !EndAt(v, 0);
      assert forall j :: 0 <= j < |v| - 1 ==> (EndAt(v[1..], j) <==> EndAt(v, j + 1));
      ReplaceNothing(v[1..]);
    }
  }

  lemma {:induction false} ReplaceFirst(a: string, b: string)
    requires forall j :: 0 <= j < |a| ==> !EndAt(a + CD_END + b, j)
    ensures CdataSafe(a + CD_END + b) == a + "]]]]><![CDATA[>" + CdataSafe(b)
  {
    var v := a + CD_END + b;
    if a == "" {
      assert v[3..] == b;
    } else {
      assert !EndAt(v, 0);
      assert v[1..] == a[1..] + CD_END + b;
      assert forall j :: 0 <= j < |a| - 1 ==> (EndAt(v[1..], j) <==> EndAt(v, j + 1));
      ReplaceFirst(a[1..], b);
    }
  }

  lemma ReadOneSection(content: string, rest: string)
    requires forall j :: 0 <= j < |content| ==> !EndAt(content + CD_END + rest, j)
    ensures ReadSections(CD_START + (content + CD_END + rest))
         == if !(CD_START <= rest) then Some((content, rest))
            else match ReadSections(rest)
                 case None => None
                 case Some(more) => Some((content + more.0, more.1))
  {
    var body := content + CD_END + rest;
    assert (CD_START + body)[|CD_START|..] == body;
    FirstEndIs(body, |content|);
    assert body[..|content|] == content && body[|content| + 3..] == rest;
  }

  lemma NoEarlierEnd(a: string, more: string, rest: string)
    requires (forall j :: 0 <= j < |a| ==> !EndAt(a + CD_END, j)) && (more == "" || more == "]]")
    ensures forall j :: 0 <= j < |a + more| ==> !EndAt(a + more + CD_END + rest, j)
  {
    var body := a + more + CD_END + rest;
    forall j | 0 <= j < |a + more|
      ensures !EndAt(body, j)
    {
      assert j < |a| ==> !EndAt(a + CD_END, j);
    }
  }

  /** Reading what was written gives back the value, whatever it contains and whatever follows. */
  lemma {:induction false} CdataRoundTrip(v: string, tail: string)
    requires !(CD_START <= tail)
    ensures ReadSections(CD_START + (CdataSafe(v) + CD_END + tail)) == Some((v, tail))
    decreases |v|
  {
    hide CdataSafe, ReadSections;
    var e := FirstEnd(v);
    if e == |v| {
      ReplaceNothing(v);
      UnendedIsClean(v);
      NoEarlierEnd(v, "", tail);
      assert v + "" == v;
      ReadOneSection(v, tail);
    } else {
      var a, b := v[..e], v[e + 3..];
      SplitAtEnd(v, e);
      FirstIsFirst(v, e);
      ReplaceFirst(a, b);
      KeepsFirst(b);
      CdataRoundTrip(">" + b, tail);
      var next := CD_START + (CdataSafe(">" + b) + CD_END + tail);
      NoEarlierEnd(a, "]]", next);
      ReadOneSection(a + "]]", next);
      Regroup(a, CdataSafe(b), tail);
      assert a + "]]" + (">" + b) == v;
    }
  }

  lemma Regroup(a: string, safe: string, tail: string)
    ensures a + "]]]]><![CDATA[>" + safe + CD_END + tail
         == a + "]]" + CD_END + (CD_START + (">" + safe + CD_END + tail))
  {
    assert "]]]]><![CDATA[>" == "]]" + CD_END + CD_START + ">";
  }

  lemma UnendedIsClean(v: string)
    requires FirstEnd(v) == |v|
    ensures (forall j :: 0 <= j < |v| ==> !EndAt(v, j)) && forall j :: 0 <= j < |v| ==> !EndAt(v + CD_END, j)
  {
    forall j | 0 <= j < |v|
      ensures !EndAt(v + CD_END, j)
    {
      assert !EndAt(v, j);
    }
  }

  lemma SplitAtEnd(v: string, e: nat)
    requires EndAt(v, e)
    ensures v == v[..e] + CD_END + v[e + 3..]
  {
  }

  lemma FirstIsFirst(v: string, e: nat)
    requires e == FirstEnd(v) && EndAt(v, e)
    ensures forall j :: 0 <= j < |v[..e]| ==> !EndAt(v[..e] + CD_END + v[e + 3..], j) && !EndAt(v[..e] + CD_END, j)
  {
    SplitAtEnd(v, e);
    forall j | 0 <= j < e
      ensures !EndAt(v, j) && !EndAt(v[..e] + CD_END, j)
    {
    }
  }

  lemma KeepsFirst(b: string)
    ensures CdataSafe(">" + b) == ">" + CdataSafe(b)
  {
    assert (">" + b)[1..] == b;
    assert (">" + b)[0] == '>';
  }

  // ----- The whole reply -----

  /** An element with a CDATA text, followed by the rest of the message. */
  function TextElement(name: string, value: string, rest: string): string {
    "<" + name + ">" + (CD_START + (CdataSafe(value) + CD_END + ("</" + name + ">" + rest)))
  }

  /** buildWeComTextReply, with the creation time already formatted. */
  function BuildReply(toUser: string, fromUser: string, created: string, content: string): string {
    "<xml>"
    + TextElement("ToUserName", toUser,
                  TextElement("FromUserName", fromUser,
                              "<CreateTime>" + (created + "</CreateTime>"
                              + TextElement("MsgType", "text", TextElement("Content", content, "</xml>")))))
  }

  function Expect(s: string, literal: string): Option<string> {
    if literal <= s then Some(s[|literal|..]) else None
  }

  /** An element holding CDATA: its text and what follows the element. */
  function ReadTextElement(s: string, name: string): Option<(string, string)> {
    match Expect(s, "<" + name + ">")
    case None => None
    case Some(inner) =>
      match ReadSections(inner)
      case None => None
      case Some(read) =>
        match Expect(read.1, "</" + name + ">")
        case None => None
        case Some(rest) => Some((read.0, rest))
  }

  function TextUpTo(s: string, stop: char): string {
    if s == "" || s[0] == stop then "" else [s[0]] + TextUpTo(s[1..], stop)
  }

  lemma ReadsElement(name: string, value: string, rest: string)
    ensures ReadTextElement(TextElement(name, value, rest), name) == Some((value, rest))
  {
    hide ReadSections, CdataSafe;
    var tail := "</" + name + ">" + rest;
    ExpectGives("<" + name + ">", CD_START + (CdataSafe(value) + CD_END + tail));
    assert tail[1] == '/';
    CdataRoundTrip(value, tail);
    ExpectGives("</" + name + ">", rest);
  }

  datatype Reply = Reply(toUser: string, fromUser: string, created: string, kind: string, content: string)

  function ReadReply(s: string): Option<Reply> {
    match Expect(s, "<xml>")
    case None => None
    case Some(s1) =>
      match ReadTextElement(s1, "ToUserName")
      case None => None
      case Some(to) =>
        match ReadTextElement(to.1, "FromUserName")
        case None => None
        case Some(from) =>
          match Expect(from.1, "<CreateTime>")
          case None => None
          case Some(s2) =>
            var created := TextUpTo(s2, '<');
            match Expect(s2, created + "</CreateTime>")
            case None => None
            case Some(s3) =>
              match ReadTextElement(s3, "MsgType")
              case None => None
              case Some(kind) =>
                match ReadTextElement(kind.1, "Content")
                case None => None
                case Some(content) =>
                  if content.1 == "</xml>" then Some(Reply(to.0, from.0, created, kind.0, content.0)) else None
  }

  lemma {:induction false} TextUpToStop(a: string, b: string, stop: char)
    requires stop !in a && b != "" && b[0] == stop
    ensures TextUpTo(a + b, stop) == a
  {
    if a == "" {
      assert a + b == b;
    } else {
      assert (a + b)[1..] == a[1..] + b;
      TextUpToStop(a[1..], b, stop);
    }
  }

  lemma ExpectGives(literal: string, rest: string)
    ensures Expect(literal + rest, literal) == Some(rest)
  {
    assert (literal + rest)[|literal|..] == rest;
  }

  /** A reply read back gives the addresses and the content it was built from, for any texts. */
  lemma ReplyRoundTrip(toUser: string, fromUser: string, created: string, content: string)
    requires '<' !in created
    ensures ReadReply(BuildReply(toUser, fromUser, created, content))
         == Some(Reply(toUser, fromUser, created, "text", content))
  {
    hide ReadTextElement, TextElement, Expect, TextUpTo;
    var s5 := TextElement("Content", content, "</xml>");
    var s4 := TextElement("MsgType", "text", s5);
    var s3 := created + "</CreateTime>" + s4;
    var s1 := TextElement("FromUserName", fromUser, "<CreateTime>" + s3);
    ExpectGives("<xml>", TextElement("ToUserName", toUser, s1));
    ReadsElement("ToUserName", toUser, s1);
    ReadsElement("FromUserName", fromUser, "<CreateTime>" + s3);
    ExpectGives("<CreateTime>", s3);
    assert s3 == created + ("</CreateTime>" + s4);
    TextUpToStop(created, "</CreateTime>" + s4, '<');
    ExpectGives(created + "</CreateTime>", s4);
    ReadsElement("MsgType", "text", s5);
    ReadsElement("Content", content, "</xml>");
  }
}
