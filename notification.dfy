/** The notification: the message `format_notification` builds and the
    token guard of `send_line_notification`. The clock reading that goes
    into the message is a parameter; the HTTP delivery is an input saying
    whether the transport succeeded. */
module Notification {
  import opened Posts
  import opened Text

  /** The pieces a message is made of, each ending where the source starts
      a new `+=`. */
  datatype Line =
    | Header(keyword: string, count: int)   // keyword and number of new posts
    | Stamp(stamp: string)                  // when the message was built
    | Heading                               // start of the latest post's details
    | Body(text: string)                    // the latest post's full text
    | Poster(user: string)
    | PostedAt(time: string)
    | LinkTo(link: string)
    | Others(more: int)                     // how many further new posts there are

  function LineText(line: Line): string
  {
    match line
    case Header(keyword, count) => "\n🔔 「" + keyword + "」の新しい投稿が" + IntToString(count) + "件見つかりました！\n"
    case Stamp(stamp) => "時刻: " + stamp + "\n"
    case Heading => "\n--- 最新の投稿 ---\n"
    case Body(text) => text + "\n"
    case Poster(user) => "投稿者: " + user + "\n"
    case PostedAt(time) => "時間: " + time + "\n"
    case LinkTo(link) => "リンク: " + link + "\n"
    case Others(more) => "\n他 " + IntToString(more) + " 件の新規投稿があります"
  }

  /** The text of a sequence of lines, one after the other. */
  function Render(lines: seq<Line>): string
  {
    Concat(lines, LineText)
  }

  /** The lines detailing the latest post: its text, then the poster, the
      time and the link where present, then the count of the other posts. */
  function DetailLines(latest: Post, count: int): seq<Line>
  {
    [Heading, Body(latest.text)]
      + (if latest.user != "" then [Poster(latest.user)] else [])
      + (if latest.time != "" then [PostedAt(latest.time)] else [])
      + (if latest.link != "" then [LinkTo(latest.link)] else [])
      + (if count > 1 then [Others(count - 1)] else [])
  }

  /** The lines of the message for `count` new posts of `keyword`, built at
      `stamp`: the header and the time always; details of `posts[0]` only,
      and only when there is a post. */
  function NotificationLines(keyword: string, count: int, posts: seq<Post>, stamp: string): (lines: seq<Line>)
    ensures |lines| >= 2 && lines[0] == Header(keyword, count) && lines[1] == Stamp(stamp)
  {
    [Header(keyword, count), Stamp(stamp)] + (if posts == [] then [] else DetailLines(posts[0], count))
  }

  /** The latest post's text is shown exactly when there is a post. */
  lemma BodyShown(keyword: string, count: int, posts: seq<Post>, stamp: string, t: string)
    ensures Body(t) in NotificationLines(keyword, count, posts, stamp) <==> (posts != [] && t == posts[0].text)
  {
  }

  /** The poster line appears exactly when the latest post has a poster. */
  lemma PosterShown(keyword: string, count: int, posts: seq<Post>, stamp: string, u: string)
    ensures Poster(u) in NotificationLines(keyword, count, posts, stamp) <==> (posts != [] && posts[0].user != "" && u == posts[0].user)
  {
  }

  /** The time line appears exactly when the latest post has a time. */
  lemma TimeShown(keyword: string, count: int, posts: seq<Post>, stamp: string, t: string)
    ensures PostedAt(t) in NotificationLines(keyword, count, posts, stamp) <==> (posts != [] && posts[0].time != "" && t == posts[0].time)
  {
  }

  /** The link line appears exactly when the latest post has a link. */
  lemma LinkShown(keyword: string, count: int, posts: seq<Post>, stamp: string, l: string)
    ensures LinkTo(l) in NotificationLines(keyword, count, posts, stamp) <==> (posts != [] && posts[0].link != "" && l == posts[0].link)
  {
  }

  /** The "others" line appears exactly when there is a post and more than
      one new post is counted; it gives `count - 1`. */
  lemma OthersShown(keyword: string, count: int, posts: seq<Post>, stamp: string, n: int)
    ensures Others(n) in NotificationLines(keyword, count, posts, stamp) <==> (posts != [] && count > 1 && n == count - 1)
  {
  }

  /** The message text for `count` new posts of `keyword`. */
  function NotificationText(keyword: string, count: int, posts: seq<Post>, stamp: string): string
  {
    Render(NotificationLines(keyword, count, posts, stamp))
  }

  /** `format_notification`: the message built by successive `+=`. */
  method FormatNotification(keyword: string, count: int, posts: seq<Post>, stamp: string) returns (message: string)
    ensures message == NotificationText(keyword, count, posts, stamp)
  {
    ghost var lines: seq<Line> := [];
    message := "";
    message, lines := Append(message, lines, Header(keyword, count));
    message, lines := Append(message, lines, Stamp(stamp));
    if posts != [] {
      var details := DetailText(posts[0], count);
      ConcatAppend(lines, DetailLines(posts[0], count), LineText);
      message := message + details;
      lines := lines + DetailLines(posts[0], count);
    }
    assert lines == NotificationLines(keyword, count, posts, stamp);
  }

  /** The text the `if posts:` block of `format_notification` adds. */
  method DetailText(latest: Post, count: int) returns (text: string)
    ensures text == Render(DetailLines(latest, count))
  {
    ghost var lines: seq<Line> := [];
    text := "";
    text, lines := Append(text, lines, Heading);
    text, lines := Append(text, lines, Body(latest.text));
    assert lines == [Heading, Body(latest.text)];
    if latest.user != "" {
      text, lines := Append(text, lines, Poster(latest.user));
    }
    assert lines == [Heading, Body(latest.text)]
      + (if latest.user != "" then [Poster(latest.user)] else []);
    if latest.time != "" {
      text, lines := Append(text, lines, PostedAt(latest.time));
    }
    assert lines == [Heading, Body(latest.text)]
      + (if latest.user != "" then [Poster(latest.user)] else [])
      + (if latest.time != "" then [PostedAt(latest.time)] else []);
    if latest.link != "" {
      text, lines := Append(text, lines, LinkTo(latest.link));
    }
    assert lines == [Heading, Body(latest.text)]
      + (if latest.user != "" then [Poster(latest.user)] else [])
      + (if latest.time != "" then [PostedAt(latest.time)] else [])
      + (if latest.link != "" then [LinkTo(latest.link)] else []);
    if count > 1 {
      text, lines := Append(text, lines, Others(count - 1));
    }
    assert lines == DetailLines(latest, count);
  }

  /** One `message += ...` step, keeping track of the lines written so far. */
  method Append(message: string, ghost lines: seq<Line>, line: Line) returns (message': string, ghost lines': seq<Line>)
    requires message == Render(lines)
    ensures lines' == lines + [line]
    ensures message' == Render(lines')
  {
    ConcatSnoc(lines, line, LineText);
    message' := message + LineText(line);
    lines' := lines + [line];
  }

  /** The rendered message holds the text of each of its lines. */
  lemma RenderedLine(lines: seq<Line>, line: Line, t: string)
    requires line in lines
    requires Contains(LineText(line), t)
    ensures Contains(Render(lines), t)
  {
    ConcatContains(lines, line, LineText, t);
  }

  /** The header names the keyword and the count. */
  lemma HeaderMentions(keyword: string, count: int)
    ensures Contains(LineText(Header(keyword, count)), keyword)
    ensures Contains(LineText(Header(keyword, count)), IntToString(count))
  {
    var a, b, c, n := "\n🔔 「", "」の新しい投稿が", "件見つかりました！\n", IntToString(count);
    assert LineText(Header(keyword, count)) == a + keyword + b + n + c;
    assert StartsWith(keyword, keyword);
    ContainsPrepend(a, keyword, keyword);
    ContainsAppend(a + keyword, b, keyword);
    ContainsAppend(a + keyword + b, n, keyword);
    ContainsAppend(a + keyword + b + n, c, keyword);
    assert StartsWith(n, n);
    ContainsPrepend(a + keyword + b, n, n);
    ContainsAppend(a + keyword + b + n, c, n);
  }

  /** A line made of a tag, a value and a line break holds tag and value,
      and the value alone. */
  lemma LabelledMentions(tag: string, value: string)
    ensures Contains(tag + value + "\n", tag + value)
    ensures Contains(tag + value + "\n", value)
  {
    assert StartsWith(tag + value, tag + value);
    ContainsAppend(tag + value, "\n", tag + value);
    assert StartsWith(value, value);
    ContainsPrepend(tag, value, value);
    ContainsAppend(tag + value, "\n", value);
  }

  /** The trailer holds "他 <count - 1> 件". */
  lemma OthersMentions(more: int)
    ensures Contains(LineText(Others(more)), "他 " + IntToString(more) + " 件")
  {
    var t := "他 " + IntToString(more) + " 件";
    var a, n, rest := "\n他 ", IntToString(more), " 件の新規投稿があります";
    assert LineText(Others(more)) == a + n + rest;
    assert a == "\n" + "他 ";
    assert rest == " 件" + "の新規投稿があります";
    assert a + n + rest == "\n" + t + "の新規投稿があります";
    assert StartsWith(t, t);
    ContainsPrepend("\n", t, t);
    ContainsAppend("\n" + t, "の新規投稿があります", t);
  }

  /** What a reader of the message sees: the keyword and the count; for a
      non-empty `posts`, the first post's text, its poster, time and link
      when present, and the number of the other posts when there are any. */
  lemma MessageMentions(keyword: string, count: int, posts: seq<Post>, stamp: string)
    ensures var message := NotificationText(keyword, count, posts, stamp);
      && Contains(message, keyword)
      && Contains(message, IntToString(count))
      && Contains(message, stamp)
      && (posts != [] ==> Contains(message, posts[0].text))
      && (posts != [] && posts[0].user != "" ==> Contains(message, "投稿者: " + posts[0].user))
      && (posts != [] && posts[0].time != "" ==> Contains(message, "時間: " + posts[0].time))
      && (posts != [] && posts[0].link != "" ==> Contains(message, "リンク: " + posts[0].link))
      && (posts != [] && count > 1 ==> Contains(message, "他 " + IntToString(count - 1) + " 件"))
  {
    var lines := NotificationLines(keyword, count, posts, stamp);
    HeaderMentions(keyword, count);
    RenderedLine(lines, Header(keyword, count), keyword);
    RenderedLine(lines, Header(keyword, count), IntToString(count));
    LabelledMentions("時刻: ", stamp);
    RenderedLine(lines, Stamp(stamp), stamp);
    if posts != [] {
      var latest := posts[0];
      LabelledMentions("", latest.text);
      assert "" + latest.text == latest.text;
      BodyShown(keyword, count, posts, stamp, latest.text);
      RenderedLine(lines, Body(latest.text), latest.text);
      if latest.user != "" {
        LabelledMentions("投稿者: ", latest.user);
        PosterShown(keyword, count, posts, stamp, latest.user);
        RenderedLine(lines, Poster(latest.user), "投稿者: " + latest.user);
      }
      if latest.time != "" {
        LabelledMentions("時間: ", latest.time);
        TimeShown(keyword, count, posts, stamp, latest.time);
        RenderedLine(lines, PostedAt(latest.time), "時間: " + latest.time);
      }
      if latest.link != "" {
        LabelledMentions("リンク: ", latest.link);
        LinkShown(keyword, count, posts, stamp, latest.link);
        RenderedLine(lines, LinkTo(latest.link), "リンク: " + latest.link);
      }
      if count > 1 {
        OthersMentions(count - 1);
        OthersShown(keyword, count, posts, stamp, count - 1);
        RenderedLine(lines, Others(count - 1), "他 " + IntToString(count - 1) + " 件");
      }
    }
  }

  /** Only the first post is detailed: the posts after it do not change the
      message. */
  lemma OnlyLatestShown(keyword: string, count: int, posts: seq<Post>, others: seq<Post>, stamp: string)
    requires posts != [] && others != [] && posts[0] == others[0]
    ensures NotificationText(keyword, count, posts, stamp) == NotificationText(keyword, count, others, stamp)
  {
  }

  /** What `send_line_notification` ends in. */
  datatype Delivery =
    | NoToken          // no token configured: nothing is sent
    | Delivered        // the service accepted the message
    | DeliveryFailed   // the request failed or was refused

  /** `send_line_notification`: without a token it gives up before any
      request; otherwise the outcome is the transport's. */
  function SendLineNotification(token: string, transportOk: bool): (d: Delivery)
    ensures d.NoToken? <==> token == ""
    ensures d.Delivered? <==> token != "" && transportOk
  {
    if token == "" then NoToken
    else if transportOk then Delivered
    else DeliveryFailed
  }

  /** The value `send_line_notification` returns. */
  function Succeeded(d: Delivery): bool
  {
    d.Delivered?
  }

  /** An empty token always yields `False`, whatever the transport would do. */
  lemma NoTokenNoSuccess(transportOk: bool)
    ensures !Succeeded(SendLineNotification("", transportOk))
  {
  }
}
