/** The Africa's Talking adapter: from a form post to a canonical event. */
module AfricasTalking {
  import opened Text
  import opened Canonical

  const NAME: string := "africastalking"

  datatype Form = Form(sessionId: string, phoneNumber: string, serviceCode: string, text: string, networkCode: string)

  function SplitPath(text: string): seq<string> {
    if text == "" then [] else Split(text, '*')
  }

  function PhaseFor(text: string): Phase {
    if text == "" then Begin else Continue
  }

  function NormaliseMSISDN(s: string): string {
    var t := TrimSpace(s);
    if t == "" || t[0] == '+' then t else "+" + t
  }

  /** Each subscriber has one form of number: empty or led by "+", stable under
      normalising again, and the same whether or not the provider sent the "+". */
  lemma NumberHasOneForm(s: string)
    ensures var r := NormaliseMSISDN(s);
            && (r == "" <==> AllSpace(s))
            && (r != "" ==> r[0] == '+' && NormaliseMSISDN(r) == r)
    ensures TrimSpace(s) != "" && TrimSpace(s)[0] != '+' ==> NormaliseMSISDN("+" + TrimSpace(s)) == NormaliseMSISDN(s)
  {
    hide IsSpace;
    var t := TrimSpace(s);
    TrimmedEnds(s);
    PlusIsVisible();
    if t != "" {
      TrimKeeps(t);
      TrimKeeps("+" + t);
    }
  }

  lemma PlusIsVisible()
    ensures !IsSpace('+')
  {
  }

  function EventOf(form: Form): Event {
    Event(NAME, TrimSpace(form.sessionId), NormaliseMSISDN(form.phoneNumber), TrimSpace(form.serviceCode),
          SplitPath(form.text), PhaseFor(form.text), TrimSpace(form.networkCode))
  }

  /** Parse after the form is decoded: the event, or the first rule it breaks. */
  method Parse(form: Form) returns (ev: Option<Event>, err: Option<EventError>)
    ensures ev.Some? <==> HasIdentity(EventOf(form))
    ensures ev.Some? ==> ev.value == EventOf(form) && ValidEvent(ev.value)
    ensures ev.Some? <==> err.None?
    ensures err.Some? ==>
              Breaks(EventOf(form), err.value) && forall e | Breaks(EventOf(form), e) :: Rank(err.value) <= Rank(e)
  {
    ParsedEventIsValid(form);
    err := Validate(EventOf(form));
    ev := if err.None? then Some(EventOf(form)) else None;
  }

  /** Exactly the forms that name a session, in at most 128 bytes, and a number
      become events. */
  lemma ParsedIff(form: Form)
    ensures HasIdentity(EventOf(form)) <==>
            !AllSpace(form.sessionId) && Utf8Len(TrimSpace(form.sessionId)) <= 128 && !AllSpace(form.phoneNumber)
  {
    hide IsSpace, Utf8Len;
    NumberHasOneForm(form.phoneNumber);
    TrimmedEnds(form.sessionId);
  }

  /** White space around the fields that identify a session does not matter, and
      without any they come through as sent, each in its own place. */
  lemma PaddingIsIgnored(form: Form, left: string, right: string)
    requires AllSpace(left) && AllSpace(right)
    requires Trimmed(form.sessionId) && Trimmed(form.serviceCode) && Trimmed(form.networkCode)
    ensures EventOf(Form(left + form.sessionId + right, left + form.phoneNumber + right, left + form.serviceCode + right,
                         form.text, left + form.networkCode + right)) == EventOf(form)
    ensures var ev := EventOf(form);
            && ev.mno == "africastalking" && ev.sessionId == form.sessionId
            && ev.shortcode == form.serviceCode && ev.networkCode == form.networkCode
  {
    hide IsSpace, TrimLeft, TrimRight;
    PaddedTrims(left, form.sessionId, right);
    PaddedTrims(left, form.serviceCode, right);
    PaddedTrims(left, form.networkCode, right);
    PhoneTrims(left, form.phoneNumber, right);
  }

  lemma PhoneTrims(left: string, phone: string, right: string)
    requires AllSpace(left) && AllSpace(right)
    ensures TrimSpace(left + phone + right) == TrimSpace(phone)
  {
    hide IsSpace, TrimSpace;
    TrimmedEnds(phone);
    var l, r := TrimParts(phone);
    var t := TrimSpace(phone);
    assert left + phone + right == (left + l) + t + (r + right);
    PaddedTrims(left + l, t, r + right);
  }

  /** No rule about input can break: only a missing or over-long identity makes
      Parse refuse a post. The begin phase means exactly an empty path. */
  lemma ParsedEventIsValid(form: Form)
    ensures ValidEvent(EventOf(form)) <==> HasIdentity(EventOf(form))
    ensures EventOf(form).phase == Begin <==> EventOf(form).path == []
    ensures !Terminal(EventOf(form).phase)
  {
  }

  /** Splitting loses nothing: the joined path is the text again. */
  lemma TextRoundTrip(text: string)
    ensures Join(SplitPath(text), "*") == text
  {
    JoinSplit(text, '*');
  }

  /** Every path of star-free segments survives the wire, except the one empty
      segment, which reads as no input. */
  lemma PathRoundTrip(path: seq<string>)
    ensures SplitPath(Join(path, "*")) == path <==> StarFree(path) && path != [""]
  {
    if StarFree(path) && path != [] {
      SplitJoin(path, '*');
      if Join(path, "*") == "" {
        assert path == [""];
      }
    }
    assert StarFree(SplitPath(Join(path, "*")));
  }

  /** One more input extends the path by exactly that segment. */
  lemma PathGrowsByOne(text: string, input: string)
    requires text != "" && '*' !in input
    ensures SplitPath(text + "*" + input) == SplitPath(text) + [input]
  {
    var path := SplitPath(text);
    JoinSplit(text, '*');
    JoinLast(path, input);
    SplitJoin(path + [input], '*');
  }

  lemma {:induction false} JoinLast(path: seq<string>, last: string)
    requires path != []
    ensures Join(path + [last], "*") == Join(path, "*") + "*" + last
  {
    if |path| == 1 {
      assert (path + [last])[1..] == [last];
    } else {
      JoinLast(path[1..], last);
      assert (path + [last])[1..] == path[1..] + [last];
    }
  }
}
