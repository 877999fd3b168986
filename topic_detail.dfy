/**
 * The topic page: which reply page to open for a floor, how floors are numbered, and the
 * reply box — submitting a reply and jumping to the last page to show it, thanking the
 * topic, and quoting a reply's author.
 */
module TopicDetail {
  import opened Wrappers
  import opened Text
  import opened Types
  import Client

  /** Replies per page of the topic. */
  const PageSize := 100

  /** The floor number shown for the reply at `index` (from 0) of page `page`: the
      replies of a page carry the hundred floors after those of the pages before it. */
  function FloorLabel(page: int, index: int): (f: int)
    ensures 0 <= index < PageSize ==> (page - 1) * PageSize < f <= page * PageSize
    ensures page >= 1 && index >= 0 ==> f >= 1
  {
    (page - 1) * PageSize + index + 1
  }

  /** The page opened first: `Math.ceil(scrollToFloor / 100)` when a non-zero floor is
      requested, page 1 otherwise (a missing floor and floor 0 are both falsy). */
  function InitialPage(scrollToFloor: Option<int>): (p: int)
    ensures scrollToFloor.None? || scrollToFloor == Some(0) ==> p == 1
    ensures scrollToFloor.Some? && scrollToFloor.value != 0 ==>
      (p - 1) * PageSize < scrollToFloor.value <= p * PageSize
    ensures scrollToFloor.Some? && scrollToFloor.value >= 1 ==> p >= 1
  {
    match scrollToFloor
    case None => 1
    case Some(f) => if f == 0 then 1 else -((-f) / PageSize)
  }

  /** A requested floor is on the page opened for it, at an index inside that page. */
  lemma RequestedFloorIsOnInitialPage(f: int)
    requires f >= 1
    ensures var p := InitialPage(Some(f));
      var i := f - 1 - (p - 1) * PageSize;
      0 <= i < PageSize && FloorLabel(p, i) == f
  {
  }

  /** Asking for the floor shown at (page, index) opens that page. */
  lemma {:induction false} FloorLabelOpensItsPage(page: int, index: int)
    requires page >= 1 && 0 <= index < PageSize
    ensures InitialPage(Some(FloorLabel(page, index))) == page
  {
    var f := FloorLabel(page, index);
    var p := InitialPage(Some(f));
    assert (p - 1) * PageSize < f <= p * PageSize;
    assert (page - 1) * PageSize < f <= page * PageSize;
  }

  /** `@${username} #${floor} `: the text appended to the draft to quote a reply. */
  function Mention(username: string, floor: int): (m: string)
    ensures |m| == |username| + |IntText(floor)| + 4
    ensures m[..|username| + 1] == "@" + username
    ensures m[|username| + 1..|username| + 3] == " #" && m[|m| - 1] == ' '
  {
    var m := "@" + username + " #" + IntText(floor) + " ";
    assert m[..|username| + 1] == "@" + username;
    assert m[|username| + 1..|username| + 3] == " #";
    m
  }

  /** The floor can be read back from a mention: the digits after " #" are its decimal form. */
  lemma MentionReadsBack(username: string, floor: int)
    requires floor >= 0
    ensures DigitRun(Mention(username, floor)[|username| + 3..]) == Dec(floor)
    ensures Value(DigitRun(Mention(username, floor)[|username| + 3..])) == floor
  {
    var m := Mention(username, floor);
    assert m[|username| + 3..] == Dec(floor) + " ";
    DigitRunOfDec(floor, " ");
    ValueOfDec(floor);
  }

  /** The answer of the reply and thank endpoints; `message` is "" when absent. */
  datatype WebResult = WebResult(success: bool, error: Option<string>, message: string)

  /** One page of a topic's replies, as the reply endpoint reports it. */
  datatype RepliesPage = RepliesPage(result: seq<Reply>, totalPages: int)

  const CookieExpired := "Cookie 已过期，请在个人页重新设置"
  const ReplyFailed := "回复失败"
  const NetworkFailure := "网络错误"

  /** The error shown under the reply box for a refused reply. */
  function ReplyFailureText(res: WebResult): (m: string)
    requires !res.success
    ensures m != ""
    ensures res.error == Some("cookie_expired") ==> m == CookieExpired
    ensures res.error != Some("cookie_expired") ==>
      m == (if res.message != "" then res.message else ReplyFailed)
  {
    if res.error == Some("cookie_expired") then CookieExpired
    else if res.message != "" then res.message
    else ReplyFailed
  }

  /** Where a submitted reply is in its sequence of awaits. */
  datatype Phase = Idle | Posting | Reloading | ReloadingLast

  /** What pressing the thank button does. */
  datatype ThankAction = Ignored | OpenInBrowser(url: string) | Requested

  class Composer {
    const topicId: nat
    /** `replyContent` */
    var draft: string
    /** `submitting`, with the step the submission has reached. */
    var phase: Phase
    /** `replyError`; "" when there is none. */
    var replyError: string
    /** `thankedTopic` */
    var thanked: bool
    /** `thankingTopic` */
    var thanking: bool
    var page: int
    var totalPages: int
    var replies: seq<Reply>

    /** The page's first render and initial load request. */
    constructor (topicId: nat, scrollToFloor: Option<int>)
      ensures this.topicId == topicId
      ensures page == InitialPage(scrollToFloor) && totalPages == 1 && replies == []
      ensures draft == "" && phase == Idle && replyError == "" && !thanked && !thanking
    {
      this.topicId := topicId;
      page := InitialPage(scrollToFloor);
      totalPages := 1;
      replies := [];
      draft := "";
      phase := Idle;
      replyError := "";
      thanked := false;
      thanking := false;
    }

    /** The initial load answered: the replies and the page count are shown. */
    method Loaded(data: RepliesPage)
      modifies this
      ensures replies == data.result && totalPages == data.totalPages
      ensures page == old(page) && draft == old(draft) && phase == old(phase)
      ensures replyError == old(replyError) && thanked == old(thanked) && thanking == old(thanking)
    {
      replies := data.result;
      totalPages := data.totalPages;
    }

    /** Typing in the reply box: the draft is replaced and the error cleared. */
    method Edit(text: string)
      modifies this
      ensures draft == text && replyError == ""
      ensures phase == old(phase) && page == old(page) && totalPages == old(totalPages)
      ensures replies == old(replies) && thanked == old(thanked) && thanking == old(thanking)
    {
      draft := text;
      replyError := "";
    }

    /** `handleReplyTo`: the mention is appended to the draft. */
    method ReplyTo(username: string, floor: int)
      modifies this
      ensures draft == old(draft) + Mention(username, floor)
      ensures old(draft) <= draft
      ensures phase == old(phase) && replyError == old(replyError) && page == old(page)
      ensures totalPages == old(totalPages) && replies == old(replies)
      ensures thanked == old(thanked) && thanking == old(thanking)
    {
      draft := draft + Mention(username, floor);
    }

    /** `handleSubmitReply` up to the post: nothing happens for a blank draft or while a
        submission runs; otherwise the trimmed draft is posted and the error cleared. */
    method BeginReply() returns (content: Option<string>)
      modifies this
      ensures AllSpace(old(draft)) || old(phase) != Idle ==> content.None? && unchanged(this)
      ensures !AllSpace(old(draft)) && old(phase) == Idle ==>
        && content == Some(Trim(old(draft)))
        && phase == Posting && replyError == ""
        && draft == old(draft) && page == old(page) && totalPages == old(totalPages)
        && replies == old(replies) && thanked == old(thanked) && thanking == old(thanking)
      ensures content.Some? ==> content.value != "" && !IsSpace(content.value[0])
    {
      var trimmed := Trim(draft);
      if trimmed == "" || phase != Idle {
        return None;
      }
      phase := Posting;
      replyError := "";
      content := Some(trimmed);
    }

    /** The post answered (`None` when it threw). A success clears the draft and asks for
        the page the topic was known to end on; a refusal or a failure shows its error
        and ends the submission. */
    method ReplyAnswered(res: Option<WebResult>) returns (reload: Option<int>)
      requires phase == Posting
      modifies this
      ensures res.None? ==>
        phase == Idle && replyError == NetworkFailure && reload.None? && draft == old(draft)
      ensures res.Some? && res.value.success ==>
        phase == Reloading && draft == "" && reload == Some(totalPages) && replyError == old(replyError)
      ensures res.Some? && !res.value.success ==>
        phase == Idle && replyError == ReplyFailureText(res.value) && reload.None?
        && draft == old(draft)
      ensures page == old(page) && totalPages == old(totalPages) && replies == old(replies)
      ensures thanked == old(thanked) && thanking == old(thanking)
    {
      reload := None;
      match res {
        case None =>
          replyError := NetworkFailure;
          phase := Idle;
        case Some(r) =>
          if r.success {
            draft := "";
            phase := Reloading;
            reload := Some(totalPages);
          } else {
            replyError := ReplyFailureText(r);
            phase := Idle;
          }
      }
    }

    /** The page the topic was known to end on came back (`None` when the request threw,
        which shows the network error). When it reports more pages than were known, that
        last page is asked for next; otherwise the answer is shown as the last page, even
        when it reports fewer pages than were known. */
    method FirstReloaded(data: Option<RepliesPage>) returns (reload: Option<int>)
      requires phase == Reloading
      modifies this
      ensures data.None? ==>
        phase == Idle && replyError == NetworkFailure && reload.None?
        && page == old(page) && totalPages == old(totalPages) && replies == old(replies)
      ensures data.Some? && data.value.totalPages > old(totalPages) ==>
        phase == ReloadingLast && reload == Some(data.value.totalPages)
        && page == old(page) && totalPages == old(totalPages) && replies == old(replies)
        && replyError == old(replyError)
      ensures data.Some? && data.value.totalPages <= old(totalPages) ==>
        phase == Idle && reload.None? && replyError == old(replyError)
        && page == totalPages == data.value.totalPages && replies == data.value.result
      ensures draft == old(draft) && thanked == old(thanked) && thanking == old(thanking)
    {
      reload := None;
      match data {
        case None =>
          replyError := NetworkFailure;
          phase := Idle;
        case Some(d) =>
          if d.totalPages > totalPages {
            phase := ReloadingLast;
            reload := Some(d.totalPages);
          } else {
            totalPages := d.totalPages;
            page := d.totalPages;
            replies := d.result;
            phase := Idle;
          }
      }
    }

    /** The newly reported last page came back and is shown as the last page. */
    method LastReloaded(data: Option<RepliesPage>)
      requires phase == ReloadingLast
      modifies this
      ensures phase == Idle
      ensures data.None? ==>
        replyError == NetworkFailure
        && page == old(page) && totalPages == old(totalPages) && replies == old(replies)
      ensures data.Some? ==>
        replyError == old(replyError)
        && page == totalPages == data.value.totalPages && replies == data.value.result
      ensures draft == old(draft) && thanked == old(thanked) && thanking == old(thanking)
    {
      match data {
        case None =>
          replyError := NetworkFailure;
        case Some(d) =>
          totalPages := d.totalPages;
          page := d.totalPages;
          replies := d.result;
      }
      phase := Idle;
    }

    /** `handleThankTopic` up to the request: ignored while thanking or once thanked; a
        visitor who is not logged in is sent to the topic on the site instead. */
    method BeginThank(loggedIn: bool) returns (act: ThankAction)
      modifies this
      ensures old(thanking) || old(thanked) ==> act == Ignored && unchanged(this)
      ensures !old(thanking) && !old(thanked) && !loggedIn ==>
        act == OpenInBrowser(Client.TopicWebUrl(topicId)) && unchanged(this)
      ensures !old(thanking) && !old(thanked) && loggedIn ==> act == Requested && thanking
      ensures thanked == old(thanked) && draft == old(draft) && phase == old(phase)
      ensures replyError == old(replyError) && page == old(page) && totalPages == old(totalPages)
      ensures replies == old(replies)
    {
      if thanking || thanked {
        return Ignored;
      }
      if !loggedIn {
        return OpenInBrowser(Client.TopicWebUrl(topicId));
      }
      thanking := true;
      act := Requested;
    }

    /** The thank request answered (`None` when it threw, which is ignored): the topic
        becomes thanked only on success and never stops being thanked; an expired cookie
        raises an alert. */
    method FinishThank(res: Option<WebResult>) returns (alert: Option<string>)
      requires thanking
      modifies this
      ensures !thanking
      ensures thanked <==> old(thanked) || (res.Some? && res.value.success)
      ensures alert.Some? <==> res.Some? && !res.value.success && res.value.error == Some("cookie_expired")
      ensures alert.Some? ==> alert.value == CookieExpired
      ensures draft == old(draft) && phase == old(phase) && replyError == old(replyError)
      ensures page == old(page) && totalPages == old(totalPages) && replies == old(replies)
    {
      alert := None;
      if res.Some? {
        if res.value.success {
          thanked := true;
        } else if res.value.error == Some("cookie_expired") {
          alert := Some(CookieExpired);
        }
      }
      thanking := false;
    }
  }

  /** A successful reply, with every reload answered, always ends on the last reported page,
      with the draft cleared and no submission running. */
  method SuccessfulReplyShowsLastPage(c: Composer, posted: WebResult, first: RepliesPage, last: RepliesPage)
    requires c.phase == Idle && !AllSpace(c.draft) && posted.success
    modifies c
    ensures c.phase == Idle && c.draft == ""
    ensures c.page == c.totalPages
    ensures c.totalPages == (if first.totalPages > old(c.totalPages) then last.totalPages else first.totalPages)
  {
    var content := c.BeginReply();
    var reload := c.ReplyAnswered(Some(posted));
    assert reload == Some(old(c.totalPages));
    var next := c.FirstReloaded(Some(first));
    if next.Some? {
      c.LastReloaded(Some(last));
    }
  }
}
