/** Model of scheduler/daily_telegram_sender.py: the text of the daily
    market-links message, the call `run_daily_send` makes to the sender,
    and the test-mode switch read by `main`.

    The date label (`now.strftime("%Y-%m-%d (%a)")` in Asia/Seoul time) is
    an input rather than computed from a clock. */
module DailyTelegramSender {
  import opened Environment
  import opened TelegramClient
  import opened TextLines
  import RetryPolicy

  const HeaderPrefix := "[자동 알림] "
  const HeaderSuffix := " 시장 링크"
  const Heading := "오늘의 경제 링크 모음"
  const InvestingKr := "https://kr.investing.com"
  const CalendarLink := "- 경제달력: " + InvestingKr + "/economic-calendar/"
  const CentralBanksLink := "- 중앙은행 기준금리: " + InvestingKr + "/central-banks/"
  const Hashtags := "#bot01 #daily"

  /** The `body` list; its last element carries its own leading newline. */
  const Body: seq<string> := [Heading, CalendarLink, CentralBanksLink, "\n" + Hashtags]

  function Header(dateLabel: string): string
  {
    HeaderPrefix + dateLabel + HeaderSuffix
  }

  /** `build_daily_message`: `"\n".join([header, ""] + body)`. */
  function BuildDailyMessage(dateLabel: string): string
  {
    Join([Header(dateLabel), ""] + Body)
  }

  /** The lines a reader of the message sees. */
  function DailyLines(dateLabel: string): seq<string>
  {
    [Header(dateLabel), "", Heading, CalendarLink, CentralBanksLink, "", Hashtags]
  }

  /** Everything of the message after the date label. */
  const TailHead := HeaderSuffix + "\n\n" + Heading + "\n" + CalendarLink + "\n" + CentralBanksLink
  const Tail := TailHead + "\n\n" + Hashtags

  /** The message is the header prefix, the label, then a fixed tail. */
  lemma DailyMessageShape(dateLabel: string)
    ensures BuildDailyMessage(dateLabel) == HeaderPrefix + dateLabel + Tail
  {
    var last := "\n" + Hashtags;
    assert [Header(dateLabel), ""] + Body ==
           [Header(dateLabel)] + ([""] + ([Heading] + ([CalendarLink] + ([CentralBanksLink] + [last]))));
    JoinCons(CentralBanksLink, [last]);
    JoinCons(CalendarLink, [CentralBanksLink] + [last]);
    JoinCons(Heading, [CalendarLink] + ([CentralBanksLink] + [last]));
    JoinCons("", [Heading] + ([CalendarLink] + ([CentralBanksLink] + [last])));
    JoinCons(Header(dateLabel), [""] + ([Heading] + ([CalendarLink] + ([CentralBanksLink] + [last]))));
  }

  /** The message is the seven reader-visible lines joined by newlines: the
      empty string and the leading newline of the last body element make the
      two blank lines. */
  lemma DailyMessageJoin(dateLabel: string)
    ensures BuildDailyMessage(dateLabel) == Join(DailyLines(dateLabel))
  {
    var header := Header(dateLabel);
    var last := "\n" + Hashtags;
    assert [header, ""] + Body == [header, "", Heading, CalendarLink, CentralBanksLink, last];
    JoinSixLines(header, "", Heading, CalendarLink, CentralBanksLink, last);
    JoinSevenLines(header, "", Heading, CalendarLink, CentralBanksLink, "", Hashtags);
    var front := header + "\n" + "" + "\n" + Heading + "\n" + CalendarLink + "\n" + CentralBanksLink;
    assert front + "\n" + last == front + "\n" + "" + "\n" + Hashtags;
  }

  /** For a label without a newline (as `strftime("%Y-%m-%d (%a)")` gives)
      the message splits into exactly seven lines: the header, a blank line,
      the heading, the two links, a blank line and the hashtags. */
  lemma DailyMessageLines(dateLabel: string)
    requires NoNewline(dateLabel)
    ensures var lines := Split(BuildDailyMessage(dateLabel));
            |lines| == 7 &&
            lines[0] == "[자동 알림] " + dateLabel + " 시장 링크" &&
            lines[1] == "" &&
            lines[2] == Heading && lines[3] == CalendarLink && lines[4] == CentralBanksLink &&
            lines[5] == "" &&
            lines[6] == "#bot01 #daily"
  {
    var lines := DailyLines(dateLabel);
    DailyMessageJoin(dateLabel);
    assert NoNewline(HeaderPrefix) && NoNewline(HeaderSuffix);
    assert NoNewline(Header(dateLabel));
    assert NoNewline(Heading) && NoNewline(CalendarLink) && NoNewline(CentralBanksLink);
    assert NoNewline(Hashtags) && NoNewline("");
    assert forall k :: 0 <= k < |lines| ==> NoNewline(lines[k]);
    SplitJoin(lines);
  }

  /** The message ends with a blank line and the hashtags, with no trailing
      newline. */
  lemma DailyMessageEnd(dateLabel: string)
    ensures var m := BuildDailyMessage(dateLabel);
            |m| > 15 && m[|m| - 15..] == "\n\n#bot01 #daily" && m[|m| - 1] != '\n'
  {
    var m := BuildDailyMessage(dateLabel);
    DailyMessageShape(dateLabel);
    var ending := "\n\n" + Hashtags;
    assert m == (HeaderPrefix + dateLabel + TailHead) + ending;
    SuffixOfConcat(HeaderPrefix + dateLabel + TailHead, ending);
    assert |ending| == 15;
  }

  lemma SuffixOfConcat(a: string, b: string)
    ensures (a + b)[|a + b| - |b|..] == b
  {
  }

  /** Recovers the date label from a daily message, if it is one. */
  function DateLabelOf(m: string): Option<string>
  {
    if |m| >= |HeaderPrefix| + |Tail| &&
       m[..|HeaderPrefix|] == HeaderPrefix && m[|m| - |Tail|..] == Tail
    then Some(m[|HeaderPrefix|..|m| - |Tail|])
    else None
  }

  /** The label can be read back out of the message, so different labels
      give different messages. */
  lemma DateLabelRoundTrip(dateLabel: string)
    ensures DateLabelOf(BuildDailyMessage(dateLabel)) == Some(dateLabel)
  {
    DailyMessageShape(dateLabel);
    var m := BuildDailyMessage(dateLabel);
    assert m[..|HeaderPrefix|] == HeaderPrefix;
    assert m[|m| - |Tail|..] == Tail;
    assert m[|HeaderPrefix|..|m| - |Tail|] == dateLabel;
  }

  lemma DailyMessageInjective(a: string, b: string)
    ensures BuildDailyMessage(a) == BuildDailyMessage(b) <==> a == b
  {
    DateLabelRoundTrip(a);
    DateLabelRoundTrip(b);
  }

  // ---------------------------------------------------------------------
  // run_daily_send
  // ---------------------------------------------------------------------

  const DailyTimeout := 10
  const DailyRetries := 1

  /** `run_daily_send`: builds the message and hands it to the sender with
      `timeout=10, retries=1`; the result is only logged there and is
      returned here so that it can be stated. */
  method RunDailySend(env: Env, dateLabel: string, transport: nat -> Response)
    returns (sent: bool, ghost posts: seq<Post>, ghost sleeps: seq<nat>)
    ensures sent == Send(env, BuildDailyMessage(dateLabel), DailyTimeout, DailyRetries, transport).sent
    ensures posts == Send(env, BuildDailyMessage(dateLabel), DailyTimeout, DailyRetries, transport).posts
    ensures sleeps == Send(env, BuildDailyMessage(dateLabel), DailyTimeout, DailyRetries, transport).sleeps
    ensures sent <==> ConfigReady(env) && (Succeeds(transport(0)) || Succeeds(transport(1)))
    ensures |posts| <= 2
    ensures forall p | p in posts :: p.text == BuildDailyMessage(dateLabel) && p.timeout == 10
    ensures sleeps == [] || sleeps == [1]
  {
    var message := BuildDailyMessage(dateLabel);
    sent, posts, sleeps := SendTelegramMessage(env, message, DailyTimeout, DailyRetries, transport);
    RetryPolicy.SendSentIff(env, message, DailyTimeout, DailyRetries, transport);
    RetryPolicy.SendPosts(env, message, DailyTimeout, DailyRetries, transport);
    RetryPolicy.SendBackoffBound(env, message, DailyTimeout, DailyRetries, transport);
    if sent {
      assert Succeeds(transport(0)) || Succeeds(transport(1));
    }
    if |sleeps| == 1 {
      assert sleeps[0] in sleeps;
    }
  }

  // ---------------------------------------------------------------------
  // Test mode
  // ---------------------------------------------------------------------

  const TestModeVar := "SCHEDULER_TEST_MODE"

  /** `str.lower()` on the characters that can matter here: ASCII letters. */
  function LowerChar(c: char): char
  {
    if 'A' <= c <= 'Z' then (c as int + 32) as char else c
  }

  function Lower(s: string): string
  {
    seq(|s|, i requires 0 <= i < |s| => LowerChar(s[i]))
  }

  /** `os.environ.get("SCHEDULER_TEST_MODE", "").lower() == "true"`: on iff
      the variable spells "true" in any mix of upper and lower case. */
  function TestMode(env: Env): (on: bool)
    ensures on <==>
            TestModeVar in env &&
            var v := env[TestModeVar];
            |v| == 4 && v[0] in "tT" && v[1] in "rR" && v[2] in "uU" && v[3] in "eE"
    ensures TestModeVar !in env ==> !on
  {
    var v := GetOr(env, TestModeVar, "");
    LowerIsTrue(v);
    Lower(v) == "true"
  }

  /** A string lowers to "true" iff it is "true" up to the case of its letters. */
  lemma LowerIsTrue(v: string)
    ensures Lower(v) == "true" <==>
            |v| == 4 && v[0] in "tT" && v[1] in "rR" && v[2] in "uU" && v[3] in "eE"
  {
    var l := Lower(v);
    if |v| == 4 {
      assert l == "true" <==> l[0] == 't' && l[1] == 'r' && l[2] == 'u' && l[3] == 'e';
    } else {
      assert |l| != |"true"|;
    }
  }
}
