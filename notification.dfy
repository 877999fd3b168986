/**
 * Reading a notification's rendered payload or a link's href: the leftmost "/t/<digits>"
 * (with an optional "#reply<digits>" right after the digits) names a topic and a reply
 * floor; failing that, the leftmost "/member/<name>" names a member.
 */
module Notification {
  import opened Wrappers
  import opened Text
  import Client

  datatype Target = Target(topicId: nat, replyFloor: Option<nat>)

  datatype Link = TopicLink(topicId: nat, replyFloor: Option<nat>) | MemberLink(username: string)

  /** `s` starts with "/t/" and a digit: a match of the topic pattern begins here. */
  predicate TopicAnchor(s: string) {
    |s| >= 4 && s[..3] == "/t/" && IsDigit(s[3])
  }

  /** The optional "#reply<digits>" group: present when `rest` starts with "#reply" and
      a digit, and then the value of the whole digit run. */
  function ReplySuffix(rest: string): Option<nat> {
    if |rest| >= 7 && rest[..6] == "#reply" && IsDigit(rest[6])
    then Some(Value(DigitRun(rest[6..])))
    else None
  }

  /** What the topic pattern reads at an anchor: the value of the whole digit run after
      "/t/", and the reply floor right after it. */
  function TargetAt(s: string): Target
    requires TopicAnchor(s)
  {
    var id := DigitRun(s[3..]);
    Target(Value(id), ReplySuffix(s[3 + |id|..]))
  }

  /** `parseNotification`: the pattern matched at its leftmost position, or none. A target
      is only ever read where a match begins. */
  function ParseNotification(s: string): (r: Option<Target>)
    ensures r.Some? ==> exists i :: 0 <= i < |s| && TopicAnchor(s[i..]) && r.value == TargetAt(s[i..])
  {
    if TopicAnchor(s) then
      assert s[0..] == s;
      Some(TargetAt(s))
    else if s == [] then None
    else
      var r := ParseNotification(s[1..]);
      assert r.Some? ==> exists i :: 0 <= i < |s| && TopicAnchor(s[i..]) && r.value == TargetAt(s[i..]) by {
        if r.Some? {
          var i :| 0 <= i < |s[1..]| && TopicAnchor(s[1..][i..]) && r.value == TargetAt(s[1..][i..]);
          assert s[1..][i..] == s[i + 1..];
        }
      }
      r
  }

  ghost predicate NoTopicAnchor(s: string) {
    forall i :: 0 <= i < |s| ==> !TopicAnchor(s[i..])
  }

  /** `i` is the leftmost position where a topic match begins. */
  ghost predicate LeftmostTopicAnchor(s: string, i: int) {
    0 <= i < |s| && TopicAnchor(s[i..]) && forall j :: 0 <= j < i ==> !TopicAnchor(s[j..])
  }

  /** The parse finds nothing exactly when no "/t/<digit>" occurs, and otherwise reads the
      target at the leftmost occurrence. */
  lemma {:induction false} ParseIsLeftmost(s: string)
    ensures ParseNotification(s).None? <==> NoTopicAnchor(s)
    ensures ParseNotification(s).Some? ==>
      exists i :: LeftmostTopicAnchor(s, i) && ParseNotification(s).value == TargetAt(s[i..])
  {
    if TopicAnchor(s) {
      assert s[0..] == s;
      assert LeftmostTopicAnchor(s, 0);
    } else if s != [] {
      ParseIsLeftmost(s[1..]);
      assert forall i :: 1 <= i <= |s| ==> s[i..] == s[1..][i - 1..];
      assert s[0..] == s;
      if ParseNotification(s[1..]).Some? {
        var i :| LeftmostTopicAnchor(s[1..], i) && ParseNotification(s[1..]).value == TargetAt(s[1..][i..]);
        assert LeftmostTopicAnchor(s, i + 1);
      }
    }
  }

  /** A prefix in which no match begins does not change the parse: the pattern is not
      anchored, so an absolute URL reads like its path. */
  lemma {:induction false} ParseSkipsPrefix(p: string, s: string)
    requires forall i :: 0 <= i < |p| ==> !TopicAnchor((p + s)[i..])
    ensures ParseNotification(p + s) == ParseNotification(s)
  {
    if p != [] {
      assert (p + s)[0..] == p + s;
      assert (p + s)[1..] == p[1..] + s;
      forall i | 0 <= i < |p| - 1 ensures !TopicAnchor((p[1..] + s)[i..]) {
        assert (p[1..] + s)[i..] == (p + s)[i + 1..];
      }
      ParseSkipsPrefix(p[1..], s);
    }
  }

  const SiteOrigin := Client.SiteOrigin

  /** The site's own origin in front of a path leaves the parse unchanged. */
  lemma AbsoluteUrlParsesLikePath(path: string)
    ensures ParseNotification(SiteOrigin + path) == ParseNotification(path)
  {
    var u := SiteOrigin + path;
    forall i | 0 <= i < |SiteOrigin| ensures !TopicAnchor(u[i..]) {
      assert u[i..][0] == SiteOrigin[i];
      if i == 6 { assert u[i..][1] == SiteOrigin[7]; }
    }
    ParseSkipsPrefix(SiteOrigin, path);
  }

  /** The topic pattern at "/t/" + the decimal form of n, followed by anything that does not
      start with a digit, reads topic n and whatever reply floor follows. */
  lemma TargetOfLink(n: nat, tail: string)
    requires tail == [] || !IsDigit(tail[0])
    ensures TopicAnchor("/t/" + Dec(n) + tail)
    ensures TargetAt("/t/" + Dec(n) + tail) == Target(n, ReplySuffix(tail))
  {
    var s := "/t/" + Dec(n) + tail;
    assert s[3..] == Dec(n) + tail;
    assert s[..3] == "/t/" && s[3] == Dec(n)[0];
    DigitRunOfDec(n, tail);
    assert s[3 + |Dec(n)|..] == tail;
    ValueOfDec(n);
  }

  /** "#reply" followed by the decimal form of f reads back as floor f. */
  lemma ReplySuffixOfDec(f: nat)
    ensures ReplySuffix("#reply" + Dec(f)) == Some(f)
  {
    var tail := "#reply" + Dec(f);
    assert tail[..6] == "#reply" && tail[6..] == Dec(f) + [];
    DigitRunOfDec(f, []);
    ValueOfDec(f);
  }

  /** Round trip: the link written for topic n and floor f reads back as n and f. */
  lemma ParseReplyLink(n: nat, f: nat)
    ensures ParseNotification("/t/" + Dec(n) + "#reply" + Dec(f)) == Some(Target(n, Some(f)))
  {
    var tail := "#reply" + Dec(f);
    assert "/t/" + Dec(n) + "#reply" + Dec(f) == "/t/" + Dec(n) + tail;
    TargetOfLink(n, tail);
    ReplySuffixOfDec(f);
  }

  /** Round trip without a floor: the link for topic n reads back as n with no floor. */
  lemma ParseTopicLink(n: nat)
    ensures ParseNotification("/t/" + Dec(n)) == Some(Target(n, None))
  {
    assert "/t/" + Dec(n) == "/t/" + Dec(n) + [];
    TargetOfLink(n, []);
  }

  /** The characters that end a member name in a link. */
  predicate IsNameStop(c: char) { c == '/' || c == '?' || c == '#' }

  /** The longest prefix of `s` without '/', '?' or '#'. */
  function NameRun(s: string): (r: string)
    ensures r <= s
    ensures forall i :: 0 <= i < |r| ==> !IsNameStop(r[i])
    ensures |r| < |s| ==> IsNameStop(s[|r|])
  {
    if s != [] && !IsNameStop(s[0]) then [s[0]] + NameRun(s[1..]) else []
  }

  /** `s` starts with "/member/" and one name character. */
  predicate MemberAnchor(s: string) {
    |s| >= 9 && s[..8] == "/member/" && !IsNameStop(s[8])
  }

  /** The member pattern at its leftmost position: the name is the nonempty run after
      "/member/" up to the first '/', '?' or '#'. */
  function ParseMember(s: string): (r: Option<string>)
    ensures r.Some? ==> r.value != [] && forall i :: 0 <= i < |r.value| ==> !IsNameStop(r.value[i])
  {
    if MemberAnchor(s) then Some(NameRun(s[8..]))
    else if s == [] then None
    else ParseMember(s[1..])
  }

  ghost predicate NoMemberAnchor(s: string) {
    forall i :: 0 <= i < |s| ==> !MemberAnchor(s[i..])
  }

  /** `i` is the leftmost position where a member match begins. */
  ghost predicate LeftmostMemberAnchor(s: string, i: int) {
    0 <= i < |s| && MemberAnchor(s[i..]) && forall j :: 0 <= j < i ==> !MemberAnchor(s[j..])
  }

  /** The member parse finds nothing exactly when no "/member/" followed by a name
      character occurs, and otherwise reads the whole name run at the leftmost occurrence. */
  lemma {:induction false} ParseMemberIsLeftmost(s: string)
    ensures ParseMember(s).None? <==> NoMemberAnchor(s)
    ensures ParseMember(s).Some? ==>
      exists i :: LeftmostMemberAnchor(s, i) && ParseMember(s).value == NameRun(s[i + 8..])
  {
    if MemberAnchor(s) {
      assert s[0..] == s;
      assert LeftmostMemberAnchor(s, 0);
    } else if s != [] {
      ParseMemberIsLeftmost(s[1..]);
      assert forall i :: 1 <= i <= |s| ==> s[i..] == s[1..][i - 1..];
      assert s[0..] == s;
      if ParseMember(s[1..]).Some? {
        var i :| LeftmostMemberAnchor(s[1..], i) && ParseMember(s[1..]).value == NameRun(s[1..][i + 8..]);
        assert s[1..][i + 8..] == s[i + 9..];
        assert LeftmostMemberAnchor(s, i + 1);
      }
    }
  }

  /** `parseNotificationLink`: a topic reading takes precedence over a member reading, and
      each link carries exactly what its parse read. */
  function ParseLink(href: string): (r: Option<Link>)
    ensures r.None? <==> ParseNotification(href).None? && ParseMember(href).None?
    ensures ParseNotification(href).Some? ==> r.Some? && r.value.TopicLink?
    ensures r.Some? && r.value.MemberLink? ==> NoTopicAnchor(href)
    ensures ParseNotification(href).Some? ==>
      r == Some(TopicLink(ParseNotification(href).value.topicId, ParseNotification(href).value.replyFloor))
    ensures ParseNotification(href).None? && ParseMember(href).Some? ==>
      r == Some(MemberLink(ParseMember(href).value))
  {
    ParseIsLeftmost(href);
    match ParseNotification(href)
    case Some(t) => Some(TopicLink(t.topicId, t.replyFloor))
    case None =>
      match ParseMember(href)
      case Some(u) => Some(MemberLink(u))
      case None => None
  }

  /** A member link "/member/<name>" reads back as that member. */
  lemma ParseMemberLink(u: string)
    requires u != [] && forall i :: 0 <= i < |u| ==> !IsNameStop(u[i])
    ensures ParseLink("/member/" + u) == Some(MemberLink(u))
  {
    var s := "/member/" + u;
    assert s[..8] == "/member/" && s[8] == u[0];
    assert s[8..] == u;
    assert NameRun(u) == u;
    forall i | 0 <= i < |s| ensures !TopicAnchor(s[i..]) {
      if i == 0 { assert s[i..][1] == 'm'; }
      else if i == 7 { if |u| >= 2 { assert s[i..][2] == u[1]; } }
      else if i < 8 { assert s[i..][0] == "/member/"[i]; }
      else { assert s[i..][0] == u[i - 8]; }
    }
    ParseIsLeftmost(s);
  }

  /** The site URL the client opens for a topic reads back as that topic. */
  lemma TopicWebUrlReadsBack(id: nat)
    ensures ParseNotification(Client.TopicWebUrl(id)) == Some(Target(id, None))
  {
    assert Client.TopicWebUrl(id) == SiteOrigin + ("/t/" + Dec(id));
    AbsoluteUrlParsesLikePath("/t/" + Dec(id));
    ParseTopicLink(id);
  }
}
