/** The start/join meeting dialog (src/components/MeetingModal.tsx). The
    meeting actions and `onClose` are callbacks the dialog cannot see; each
    call to one is recorded in an effects log. */
module MeetingModal {
  import opened Text

  datatype Effect = JoinMeeting(meetingId: string) | CreateInstantMeeting | Close

  /** The meeting id taken from a pasted link: `meetingUrl.split("/").pop()`. */
  function MeetingId(url: string): string {
    LastPiece(url, '/')
  }

  /** `isJoinMeeting && !meetingUrl.trim()` */
  predicate StartDisabled(isJoinMeeting: bool, url: string) {
    isJoinMeeting && Trim(url) == ""
  }

  /** What a press of the start/join button calls, in order. */
  function StartEffects(isJoinMeeting: bool, url: string): seq<Effect> {
    if !isJoinMeeting then [CreateInstantMeeting, Close]
    else if MeetingId(url) != "" then [JoinMeeting(MeetingId(url)), Close]
    else [Close]
  }

  class Modal {
    const isJoinMeeting: bool
    var meetingUrl: string
    var effects: seq<Effect>

    constructor (isJoinMeeting: bool)
      ensures this.isJoinMeeting == isJoinMeeting && meetingUrl == "" && effects == []
    {
      this.isJoinMeeting := isJoinMeeting;
      meetingUrl := "";
      effects := [];
    }

    /** Whether the start/join button is disabled. */
    predicate StartButtonDisabled()
      reads this
    {
      StartDisabled(isJoinMeeting, meetingUrl)
    }

    /** The link input's onChange; the input exists only in join mode. */
    method OnUrlChange(value: string)
      requires isJoinMeeting
      modifies this
      ensures meetingUrl == value && effects == old(effects)
    {
      meetingUrl := value;
    }

    /** handleStartMeeting: join the id from the link when it is non-empty
        (join mode) or create an instant meeting; then clear the link and
        close the dialog. The button's disabled state is StartButtonDisabled;
        the handler itself does not check it. */
    method HandleStartMeeting()
      modifies this
      ensures meetingUrl == ""
      ensures effects == old(effects) + StartEffects(isJoinMeeting, old(meetingUrl))
    {
      if isJoinMeeting {
        var meetingId := MeetingId(meetingUrl);
        if meetingId != "" {
          effects := effects + [JoinMeeting(meetingId)];
        }
      } else {
        effects := effects + [CreateInstantMeeting];
      }
      meetingUrl := "";
      effects := effects + [Close];
    }

    /** Cancel and dismissing the dialog only call onClose; the typed link
        is kept. */
    method Cancel()
      modifies this
      ensures meetingUrl == old(meetingUrl) && effects == old(effects) + [Close]
    {
      effects := effects + [Close];
    }
  }

  /** The button is disabled exactly in join mode when the link is empty or
      all whitespace. */
  lemma StartDisabledIffBlank(isJoinMeeting: bool, url: string)
    ensures StartDisabled(isJoinMeeting, url) <==> isJoinMeeting && AllSpace(url)
  {
  }

  /** The id joined is the last '/'-separated piece of the link: a suffix
      of it, free of '/', right after the link's last '/' (or the whole link
      if it has none). */
  lemma JoinedIdIsLastSegment(url: string)
    requires MeetingId(url) != ""
    ensures var id := MeetingId(url);
            StartEffects(true, url) == [JoinMeeting(id), Close]
            && '/' !in id && id == url[|url| - |id|..]
            && ('/' in url ==> url[|url| - |id| - 1] == '/')
            && ('/' !in url ==> id == url)
  {
  }

  /** A link ending in '/' enables the button but joins nothing: the
      dialog only closes. */
  lemma {:induction false} TrailingSlashJoinsNothing(url: string)
    requires |url| > 0 && url[|url| - 1] == '/'
    ensures !StartDisabled(true, url)
    ensures StartEffects(true, url) == [Close]
  {
    assert !IsJsSpace(url[|url| - 1]);
    StartDisabledIffBlank(true, url);
  }

  /** Whatever is in the link, create mode creates exactly one meeting
      and closes. */
  lemma CreateModeIgnoresLink(url1: string, url2: string)
    ensures StartEffects(false, url1) == StartEffects(false, url2) == [CreateInstantMeeting, Close]
  {
  }

  /** Every press closes the dialog exactly once, as its last effect, and
      starts at most one meeting. */
  lemma StartAlwaysCloses(isJoinMeeting: bool, url: string)
    ensures var t := StartEffects(isJoinMeeting, url);
            |t| >= 1 && t[|t| - 1] == Close && multiset(t)[Close] == 1 && |t| <= 2
  {
  }
}
