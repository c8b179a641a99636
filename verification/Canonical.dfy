/** The wire-neutral event and response, and the rules every adapter upholds. */
module Canonical {
  import opened Encoding

  datatype Option<+T> = None | Some(value: T)

  /** The four lifecycle signals, or a text that is none of them. */
  datatype Phase = Begin | Continue | Cancel | Timeout | Unknown(name: string)

  /** The phase ends the session without rendering anything. */
  predicate Terminal(p: Phase) {
    p == Cancel || p == Timeout
  }

  const MAX_SESSION_ID_LEN: nat := 128

  datatype Event = Event(
    mno: string, sessionId: string, msisdn: string, shortcode: string,
    path: seq<string>, phase: Phase, networkCode: string)

  datatype Response = Response(body: string, endSession: bool)

  /** The most recent input, or "" on a fresh session. */
  function LastInput(ev: Event): string {
    if ev.path == [] then "" else ev.path[|ev.path| - 1]
  }

  datatype EventError =
    | NoMNO
    | NoSessionID
    | SessionIDTooLong(bytes: nat)
    | NoMSISDN
    | UnknownPhase(name: string)
    | BeginCarriesInput(segments: nat)
    | SegmentHasSeparator(index: nat)

  /** Length in UTF-8 bytes. */
  function Utf8Len(s: string): nat {
    if s == "" then 0
    else
      var c := s[|s| - 1];
      Utf8Len(s[..|s| - 1]) +
      if c < '\U{80}' then 1 else if c < '\U{800}' then 2 else if c <= '\U{FFFF}' then 3 else 4
  }

  /** UTF-8 spends the fewest bytes that can carry a rune: their payload is 7, 11, 16
      or 21 bits. */
  lemma Utf8IsShortest(c: char)
    ensures var n := Utf8Len([c]);
            && 1 <= n <= 4 && (c as int) < [0x80, 0x800, 0x1_0000, 0x20_0000][n - 1]
            && (n > 1 ==> [0x80, 0x800, 0x1_0000][n - 2] <= c as int)
  {
    assert [c][..0] == "";
  }

  /** The identity fields are present and bounded. */
  predicate HasIdentity(ev: Event) {
    ev.mno != "" && ev.sessionId != "" && Utf8Len(ev.sessionId) <= MAX_SESSION_ID_LEN && ev.msisdn != ""
  }

  predicate StarFree(path: seq<string>) {
    forall seg | seg in path :: '*' !in seg
  }

  predicate ValidEvent(ev: Event) {
    HasIdentity(ev) && !ev.phase.Unknown? && (ev.phase == Begin ==> ev.path == []) && StarFree(ev.path)
  }

  /** The event breaks the rule that `e` names. */
  predicate Breaks(ev: Event, e: EventError) {
    match e
    case NoMNO => ev.mno == ""
    case NoSessionID => ev.sessionId == ""
    case SessionIDTooLong(bytes) => bytes == Utf8Len(ev.sessionId) > MAX_SESSION_ID_LEN
    case NoMSISDN => ev.msisdn == ""
    case UnknownPhase(name) => ev.phase == Unknown(name)
    case BeginCarriesInput(segments) => ev.phase == Begin && segments == |ev.path| > 0
    case SegmentHasSeparator(index) => index < |ev.path| && '*' in ev.path[index]
  }

  /** The order in which the rules are checked. */
  function Rank(e: EventError): nat {
    match e
    case NoMNO => 0
    case NoSessionID => 1
    case SessionIDTooLong(_) => 2
    case NoMSISDN => 3
    case UnknownPhase(_) => 4
    case BeginCarriesInput(_) => 5
    case SegmentHasSeparator(index) => 6 + index
  }

  method Validate(ev: Event) returns (err: Option<EventError>)
    ensures err.None? <==> ValidEvent(ev)
    ensures err.None? ==> forall e :: !Breaks(ev, e)
    ensures err.Some? ==> Breaks(ev, err.value) && forall e | Breaks(ev, e) :: Rank(err.value) <= Rank(e)
  {
    hide Utf8Len;
    if ev.mno == "" {
      return Some(NoMNO);
    } else if ev.sessionId == "" {
      return Some(NoSessionID);
    } else if Utf8Len(ev.sessionId) > MAX_SESSION_ID_LEN {
      return Some(SessionIDTooLong(Utf8Len(ev.sessionId)));
    } else if ev.msisdn == "" {
      return Some(NoMSISDN);
    } else if ev.phase.Unknown? {
      return Some(UnknownPhase(ev.phase.name));
    } else if ev.phase == Begin && |ev.path| > 0 {
      return Some(BeginCarriesInput(|ev.path|));
    }
    for i := 0 to |ev.path|
      invariant StarFree(ev.path[..i])
    {
      if '*' in ev.path[i] {
        assert ev.path[i] in ev.path;
        return Some(SegmentHasSeparator(i));
      }
      assert ev.path[..i + 1] == ev.path[..i] + [ev.path[i]];
    }
    assert ev.path[..|ev.path|] == ev.path;
    return None;
  }

  /** The screen budget every adapter and the dispatcher enforce. */
  predicate ValidResponse(r: Response) {
    Fits(r.body)
  }
}
