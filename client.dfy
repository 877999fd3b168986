/**
 * The API client: the error a failed request turns into, the request headers, and the
 * paths and URLs the client builds. The `fetch` calls themselves are not modelled; a
 * response enters the model as its status and its decoded body.
 */
module Client {
  import opened Wrappers
  import opened Text

  /** The site whose pages the web URLs point at. */
  const SiteOrigin := "https://www.v2ex.com"

  const Unauthorized := "认证失败，请重新登录"
  const Forbidden := "无权限访问"
  const Unavailable := "服务暂时不可用，请稍后重试"
  const FailedPrefix := "请求失败 ("

  /** `res.ok` */
  predicate IsOk(status: nat) { 200 <= status <= 299 }

  /** The message of the error thrown for a response that is not OK. */
  function StatusMessage(status: nat): (m: string)
    ensures status == 401 ==> m == Unauthorized
    ensures status == 403 ==> m == Forbidden
    ensures status >= 500 ==> m == Unavailable
    ensures status != 401 && status != 403 && status < 500 ==>
      m == FailedPrefix + Dec(status) + ")"
  {
    if status == 401 then Unauthorized
    else if status == 403 then Forbidden
    else if status >= 500 then Unavailable
    else FailedPrefix + Dec(status) + ")"
  }

  /** Below 500, the message tells the status apart: two statuses with the same message
      are the same status. */
  lemma StatusMessageIdentifiesStatus(a: nat, b: nat)
    requires a < 500 && b < 500
    requires StatusMessage(a) == StatusMessage(b)
    ensures a == b
  {
    var p := |FailedPrefix|;
    if a != 401 && a != 403 && b != 401 && b != 403 {
      var ma := StatusMessage(a);
      assert ma[p..|ma| - 1] == Dec(a);
      assert StatusMessage(b)[p..|ma| - 1] == Dec(b);
      DecInjective(a, b);
    } else if a == 401 || a == 403 || b == 401 || b == 403 {
      assert Unauthorized[0] != FailedPrefix[0] && Forbidden[0] != FailedPrefix[0];
      assert Unauthorized[0] != Forbidden[0];
      assert StatusMessage(a)[0] == StatusMessage(b)[0];
    }
  }

  /** A decoded JSON body: something falsy (such as `null`), or an object whose `success`
      field is a boolean or something else (`None`) and whose `message` is "" when absent. */
  datatype Body = Falsy | Object(success: Option<bool>, message: string)

  /** `request`'s handling of a response: a status that is not OK throws the status
      message; an OK body with `success === false` and a message throws that message;
      everything else is returned as it is. */
  function Check(status: nat, body: Body): (r: Result<Body, string>)
    ensures !IsOk(status) ==> r == Failure(StatusMessage(status))
    ensures IsOk(status) && body.Object? && body.success == Some(false) && body.message != "" ==>
      r == Failure(body.message)
    ensures r.Success? <==> IsOk(status) && !(body.Object? && body.success == Some(false) && body.message != "")
    ensures r.Success? ==> r.value == body
  {
    if !IsOk(status) then Failure(StatusMessage(status))
    else if body.Object? && body.success == Some(false) && body.message != "" then Failure(body.message)
    else Success(body)
  }

  const ContentType := "Content-Type"
  const Json := "application/json"

  /** The headers sent: JSON content type by default, every caller header kept and
      winning over the default. */
  function Headers(caller: map<string, string>): (h: map<string, string>)
    ensures h.Keys == caller.Keys + {ContentType}
    ensures forall k :: k in caller ==> h[k] == caller[k]
    ensures ContentType !in caller ==> h[ContentType] == Json
  {
    map[ContentType := Json] + caller
  }

  /** `v1.replies`: the path for one page of a topic's replies, page 1 by default. */
  function RepliesPath(topicId: nat, page: Option<nat>): (r: string)
    ensures var head := "/replies/show.json?topic_id=";
      var tail := "&page=" + Dec(page.GetOr(1)) + "&page_size=100";
      |r| == |head| + |Dec(topicId)| + |tail|
      && r[..|head|] == head && r[|head|..|head| + |Dec(topicId)|] == Dec(topicId)
    ensures var tail := "&page=" + Dec(page.GetOr(1)) + "&page_size=100";
      r[|r| - |tail|..] == tail
  {
    var head := "/replies/show.json?topic_id=";
    var tail := "&page=" + Dec(page.GetOr(1)) + "&page_size=100";
    var r := head + Dec(topicId) + tail;
    assert r[..|head|] == head && r[|head|..|head| + |Dec(topicId)|] == Dec(topicId);
    assert r[|r| - |tail|..] == tail;
    assert r == head + Dec(topicId) + "&page=" + Dec(page.GetOr(1)) + "&page_size=100";
    r
  }

  /** `getTopicWebUrl`: the topic's page on the site. */
  function TopicWebUrl(id: nat): (r: string)
    ensures |r| == |SiteOrigin| + 3 + |Dec(id)|
    ensures r[..|SiteOrigin|] == SiteOrigin && r[|SiteOrigin|..|SiteOrigin| + 3] == "/t/"
    ensures r[|SiteOrigin| + 3..] == Dec(id)
  {
    var r := SiteOrigin + "/t/" + Dec(id);
    assert r[..|SiteOrigin|] == SiteOrigin && r[|SiteOrigin|..|SiteOrigin| + 3] == "/t/";
    r
  }

  /** Characters `encodeURIComponent` leaves as they are. */
  predicate Unreserved(c: char) {
    ('A' <= c <= 'Z') || ('a' <= c <= 'z') || ('0' <= c <= '9')
    || c == '-' || c == '_' || c == '.' || c == '!' || c == '~' || c == '*' || c == '\'' || c == '(' || c == ')'
  }

  predicate IsUpperHex(c: char) { ('0' <= c <= '9') || ('A' <= c <= 'F') }

  function HexDigit(d: nat): (c: char)
    requires d < 16
    ensures IsUpperHex(c)
  {
    if d < 10 then (('0' as int) + d) as char else (('A' as int) + d - 10) as char
  }

  /** The UTF-8 encoding of one character, as byte values. */
  function Utf8(c: char): (bytes: seq<nat>)
    ensures 1 <= |bytes| <= 4
    ensures forall i :: 0 <= i < |bytes| ==> bytes[i] < 256
  {
    var n := c as int;
    if n < 0x80 then [n]
    else if n < 0x800 then [0xC0 + n / 64, 0x80 + n % 64]
    else if n < 0x10000 then [0xE0 + n / 4096, 0x80 + (n / 64) % 64, 0x80 + n % 64]
    else [0xF0 + n / 262144, 0x80 + (n / 4096) % 64, 0x80 + (n / 64) % 64, 0x80 + n % 64]
  }

  /** "%XY" for each byte, upper-case hexadecimal. */
  function PercentBytes(bytes: seq<nat>): (r: string)
    requires forall i :: 0 <= i < |bytes| ==> bytes[i] < 256
    ensures |r| == 3 * |bytes|
    ensures forall i :: 0 <= i < |r| ==> r[i] == '%' || IsUpperHex(r[i])
  {
    if bytes == [] then []
    else ['%', HexDigit(bytes[0] / 16), HexDigit(bytes[0] % 16)] + PercentBytes(bytes[1..])
  }

  /** `encodeURIComponent` (strings here hold Unicode scalar values, so the error it raises
      for a lone surrogate cannot arise). */
  function EncodeUriComponent(s: string): (r: string)
    ensures forall i :: 0 <= i < |r| ==> Unreserved(r[i]) || r[i] == '%' || IsUpperHex(r[i])
    ensures (forall i :: 0 <= i < |s| ==> Unreserved(s[i])) ==> r == s
  {
    if s == [] then []
    else
      (if Unreserved(s[0]) then [s[0]] else PercentBytes(Utf8(s[0])))
      + EncodeUriComponent(s[1..])
  }

  /** `web.nodeTopics`: the path for one page of a node's topics, page 1 by default. */
  function NodeTopicsPath(nodeName: string, page: Option<nat>): (r: string)
    ensures var e := EncodeUriComponent(nodeName);
      |r| >= 10 + |e| && r[..10] == "/web/node/" && r[10..10 + |e|] == e
    ensures var tail := "?p=" + Dec(page.GetOr(1));
      |r| >= |tail| && r[|r| - |tail|..] == tail
  {
    var e := EncodeUriComponent(nodeName);
    var tail := "?p=" + Dec(page.GetOr(1));
    var r := "/web/node/" + e + tail;
    assert r[..10] == "/web/node/" && r[10..10 + |e|] == e;
    assert r[|r| - |tail|..] == tail;
    r
  }

  /** Whatever the node name holds, it stays inside one path segment: the path has exactly
      the three slashes of "/web/node/" and a single '?'. */
  lemma NodeNameStaysInItsSegment(nodeName: string, page: Option<nat>)
    ensures var r := NodeTopicsPath(nodeName, page);
      (forall i :: 0 <= i < |r| && r[i] == '/' ==> i < 10)
      && (forall i :: 0 <= i < |r| && (r[i] == '?' || r[i] == '#') ==> i == 10 + |EncodeUriComponent(nodeName)|)
  {
    var e := EncodeUriComponent(nodeName);
    var d := Dec(page.GetOr(1));
    var r := NodeTopicsPath(nodeName, page);
    assert r == "/web/node/" + e + "?p=" + d;
    forall i | 10 <= i < |r| && i != 10 + |e|
      ensures r[i] != '/' && r[i] != '?' && r[i] != '#'
    {
      if i < 10 + |e| {
        assert r[i] == e[i - 10];
        assert Unreserved(e[i - 10]) || e[i - 10] == '%' || IsUpperHex(e[i - 10]);
      } else if i >= 13 + |e| {
        assert r[i] == d[i - 13 - |e|];
        assert IsDigit(d[i - 13 - |e|]);
      }
    }
  }
}
