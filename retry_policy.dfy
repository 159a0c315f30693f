/** The retry policy of `send_telegram_message`, stated and proved about the
    reference definition `TelegramClient.Attempts` (and hence, through the
    postcondition of `TelegramClient.SendTelegramMessage`, about the loop). */
module RetryPolicy {
  import opened Environment
  import opened TelegramClient

  /** Number of loop iterations left: `len(range(attempt, retries + 1))`. */
  function Span(attempt: nat, retries: int): nat
  {
    if attempt <= retries then retries + 1 - attempt else 0
  }

  /** The backoff sleeps the code takes after failed attempts `from .. to-1`:
      `2^i` seconds after attempt `i` exactly when that failure reaches the
      backoff step (API-level error or `RequestException`). */
  function Pauses(transport: nat -> Response, from: nat, to: nat): seq<nat>
    decreases if to <= from then 0 else to - from
  {
    if to <= from then []
    else (if Classify(transport(from)) == FailedThenBackoff then [Pow2(from)] else [])
         + Pauses(transport, from + 1, to)
  }

  function Sum(s: seq<nat>): nat
  {
    if s == [] then 0 else s[0] + Sum(s[1..])
  }

  // ---------------------------------------------------------------------
  // Facts about Attempts, from an arbitrary loop index
  // ---------------------------------------------------------------------

  /** At most one POST per remaining iteration, at least one when any remain,
      and every POST is the same request. */
  lemma {:induction false} AttemptsPosts(post: Post, transport: nat -> Response, attempt: nat, retries: int)
    ensures var t := Attempts(post, transport, attempt, retries);
            |t.posts| <= Span(attempt, retries) &&
            (attempt <= retries ==> |t.posts| >= 1) &&
            forall p | p in t.posts :: p == post
    decreases Span(attempt, retries)
  {
    if attempt <= retries && Classify(transport(attempt)) != Delivered {
      AttemptsPosts(post, transport, attempt + 1, retries);
    }
  }

  /** The call reports success iff some remaining attempt succeeds. */
  lemma {:induction false} AttemptsSentIff(post: Post, transport: nat -> Response, attempt: nat, retries: int)
    ensures Attempts(post, transport, attempt, retries).sent <==>
            exists i :: attempt <= i <= retries && Succeeds(transport(i))
    decreases Span(attempt, retries)
  {
    if attempt <= retries && !Succeeds(transport(attempt)) {
      AttemptsSentIff(post, transport, attempt + 1, retries);
      assert forall i :: attempt <= i <= retries && Succeeds(transport(i)) ==> attempt + 1 <= i;
    }
  }

  /** The loop stops at the first successful attempt: no attempt after it. */
  lemma {:induction false} AttemptsStopAtFirstSuccess(post: Post, transport: nat -> Response, attempt: nat, retries: int, k: nat)
    requires attempt <= k <= retries
    requires Succeeds(transport(k))
    requires forall i :: attempt <= i < k ==> !Succeeds(transport(i))
    ensures var t := Attempts(post, transport, attempt, retries);
            t.sent && |t.posts| == k - attempt + 1
    decreases k - attempt
  {
    if attempt < k {
      AttemptsStopAtFirstSuccess(post, transport, attempt + 1, retries, k);
    }
  }

  /** When every attempt fails, every iteration of the loop runs. */
  lemma {:induction false} AttemptsExhaust(post: Post, transport: nat -> Response, attempt: nat, retries: int)
    requires forall i :: attempt <= i <= retries ==> !Succeeds(transport(i))
    ensures var t := Attempts(post, transport, attempt, retries);
            !t.sent && |t.posts| == Span(attempt, retries)
    decreases Span(attempt, retries)
  {
    if attempt <= retries {
      AttemptsExhaust(post, transport, attempt + 1, retries);
    }
  }

  /** The sleeps are exactly the backoffs of the failed attempts before the
      last one made: none after a success, none after the final attempt. */
  lemma {:induction false} AttemptsSleeps(post: Post, transport: nat -> Response, attempt: nat, retries: int)
    requires attempt <= retries
    ensures var t := Attempts(post, transport, attempt, retries);
            |t.posts| >= 1 &&
            t.sleeps == Pauses(transport, attempt, attempt + |t.posts| - 1)
    decreases Span(attempt, retries)
  {
    var t := Attempts(post, transport, attempt, retries);
    var end := Classify(transport(attempt));
    if end != Delivered && attempt < retries {
      AttemptsSleeps(post, transport, attempt + 1, retries);
      var next := Attempts(post, transport, attempt + 1, retries);
      assert |t.posts| == 1 + |next.posts|;
    }
  }

  lemma {:induction false} SumConcat(a: seq<nat>, b: seq<nat>)
    ensures Sum(a + b) == Sum(a) + Sum(b)
  {
    if a == [] {
      assert a + b == b;
    } else {
      assert (a + b)[1..] == a[1..] + b;
      SumConcat(a[1..], b);
    }
  }

  /** The backoffs of attempts `from .. to-1` add up to at most
      `2^to - 2^from` seconds, and to exactly that when every one of those
      failures reaches the backoff step. */
  lemma {:induction false} PausesTotal(transport: nat -> Response, from: nat, to: nat)
    requires from <= to
    ensures Sum(Pauses(transport, from, to)) + Pow2(from) <= Pow2(to)
    ensures (forall i :: from <= i < to ==> Classify(transport(i)) == FailedThenBackoff) ==>
              Sum(Pauses(transport, from, to)) + Pow2(from) == Pow2(to)
    decreases if to <= from then 0 else to - from
  {
    if from < to {
      var head := if Classify(transport(from)) == FailedThenBackoff then [Pow2(from)] else [];
      PausesTotal(transport, from + 1, to);
      SumConcat(head, Pauses(transport, from + 1, to));
      assert Sum([Pow2(from)]) == Pow2(from) by {
        assert [Pow2(from)][1..] == [];
      }
    }
  }

  lemma {:induction false} Pow2Monotone(a: nat, b: nat)
    requires a <= b
    ensures Pow2(a) <= Pow2(b)
    decreases b - a
  {
    if a < b {
      Pow2Monotone(a, b - 1);
    }
  }

  // ---------------------------------------------------------------------
  // send_telegram_message as a whole
  // ---------------------------------------------------------------------

  /** Missing configuration short-circuits: no POST at all happens exactly
      when the token or chat id is missing or empty, or `retries < 0`
      (`range(retries + 1)` is then empty); in both cases the result is False. */
  lemma SendMakesNoAttempt(env: Env, text: string, timeout: int, retries: int, transport: nat -> Response)
    ensures var t := Send(env, text, timeout, retries, transport);
            (t.posts == [] <==> !ConfigReady(env) || retries < 0) &&
            (t.posts == [] ==> !t.sent && t.sleeps == [])
  {
    if ConfigReady(env) {
      AttemptsPosts(MakePost(env, text, timeout), transport, 0, retries);
      if retries < 0 {
        assert Attempts(MakePost(env, text, timeout), transport, 0, retries) == Trace(false, [], []);
      }
    }
  }

  /** At most `retries + 1` POSTs, each to the bot's sendMessage URL with
      the configured chat id and the text unchanged. */
  lemma SendPosts(env: Env, text: string, timeout: int, retries: int, transport: nat -> Response)
    ensures var t := Send(env, text, timeout, retries, transport);
            |t.posts| <= (if retries < 0 then 0 else retries + 1) &&
            forall p | p in t.posts ::
              ConfigReady(env) &&
              p == Post(SendMessageUrl(env[BotTokenVar]), ChatId(env).value, text, timeout)
  {
    if ConfigReady(env) {
      AttemptsPosts(MakePost(env, text, timeout), transport, 0, retries);
    }
  }

  /** The result is True iff the configuration is present and one of the
      first `retries + 1` transport outcomes is a success. */
  lemma SendSentIff(env: Env, text: string, timeout: int, retries: int, transport: nat -> Response)
    ensures Send(env, text, timeout, retries, transport).sent <==>
            ConfigReady(env) && exists i :: 0 <= i <= retries && Succeeds(transport(i))
  {
    if ConfigReady(env) {
      AttemptsSentIff(MakePost(env, text, timeout), transport, 0, retries);
    }
  }

  /** With the first success at attempt `k` (K = k failures before it):
      exactly `k + 1` POSTs, result True, and the only sleeps are the
      backoffs of the `k` failures. */
  lemma SendFirstSuccess(env: Env, text: string, timeout: int, retries: int, transport: nat -> Response, k: nat)
    requires ConfigReady(env)
    requires k <= retries
    requires Succeeds(transport(k))
    requires forall i :: 0 <= i < k ==> !Succeeds(transport(i))
    ensures var t := Send(env, text, timeout, retries, transport);
            t.sent && |t.posts| == k + 1 && t.sleeps == Pauses(transport, 0, k)
  {
    var post := MakePost(env, text, timeout);
    AttemptsStopAtFirstSuccess(post, transport, 0, retries, k);
    AttemptsSleeps(post, transport, 0, retries);
  }

  /** With every attempt failing: exactly `retries + 1` POSTs, result False,
      and a total backoff of at most `2^retries - 1` seconds, reached exactly
      when every failure is an API-level error or a `RequestException`. */
  lemma SendAllFail(env: Env, text: string, timeout: int, retries: nat, transport: nat -> Response)
    requires ConfigReady(env)
    requires forall i :: 0 <= i <= retries ==> !Succeeds(transport(i))
    ensures var t := Send(env, text, timeout, retries, transport);
            !t.sent && |t.posts| == retries + 1 &&
            t.sleeps == Pauses(transport, 0, retries) &&
            Sum(t.sleeps) <= Pow2(retries) - 1 &&
            ((forall i :: 0 <= i < retries ==> Classify(transport(i)) == FailedThenBackoff) ==>
               Sum(t.sleeps) == Pow2(retries) - 1)
  {
    var post := MakePost(env, text, timeout);
    AttemptsExhaust(post, transport, 0, retries);
    AttemptsSleeps(post, transport, 0, retries);
    PausesTotal(transport, 0, retries);
  }

  /** Whatever the transport does, the call sleeps at most `2^retries - 1`
      seconds in total. */
  lemma SendBackoffBound(env: Env, text: string, timeout: int, retries: int, transport: nat -> Response)
    ensures var t := Send(env, text, timeout, retries, transport);
            |t.sleeps| <= (if retries <= 0 then 0 else retries) &&
            Sum(t.sleeps) <= (if retries < 0 then 0 else Pow2(retries) - 1)
  {
    var t := Send(env, text, timeout, retries, transport);
    if ConfigReady(env) && retries >= 0 {
      var post := MakePost(env, text, timeout);
      AttemptsPosts(post, transport, 0, retries);
      AttemptsSleeps(post, transport, 0, retries);
      var last := |t.posts| - 1;
      PausesTotal(transport, 0, last);
      PausesLength(transport, 0, last);
      Pow2Monotone(last, retries);
    } else {
      SendMakesNoAttempt(env, text, timeout, retries, transport);
    }
  }

  lemma {:induction false} PausesLength(transport: nat -> Response, from: nat, to: nat)
    requires from <= to
    ensures |Pauses(transport, from, to)| <= to - from
    decreases if to <= from then 0 else to - from
  {
    if from < to {
      PausesLength(transport, from + 1, to);
    }
  }

  // ---------------------------------------------------------------------
  // Two concrete retry scenarios, with retries = 2
  // ---------------------------------------------------------------------

  /** Two failures then a success: three POSTs and the result is True. */
  lemma TwoFailuresThenSuccess(env: Env, text: string, timeout: int, transport: nat -> Response)
    requires ConfigReady(env)
    requires !Succeeds(transport(0)) && !Succeeds(transport(1)) && Succeeds(transport(2))
    ensures var t := Send(env, text, timeout, 2, transport);
            t.sent && |t.posts| == 3
  {
    SendFirstSuccess(env, text, timeout, 2, transport, 2);
  }

  /** A transport that always fails: three POSTs and the result is False. */
  lemma AlwaysFailing(env: Env, text: string, timeout: int, transport: nat -> Response)
    requires ConfigReady(env)
    requires forall i :: !Succeeds(transport(i))
    ensures var t := Send(env, text, timeout, 2, transport);
            !t.sent && |t.posts| == 3
  {
    SendAllFail(env, text, timeout, 2, transport);
  }

  // ---------------------------------------------------------------------
  // Backoff skipped by `continue`
  // ---------------------------------------------------------------------

  /** As written, an HTTP error status or a body that is not JSON ends the
      iteration with `continue`, before the backoff step: with `retries = 1`
      and a server answering 500 twice, both POSTs happen back to back and
      no sleep is taken, where the backoff step would sleep 1 second. */
  lemma HttpErrorRetriesWithoutPause(env: Env, text: string, timeout: int)
    requires ConfigReady(env)
    ensures var transport := (i: nat) => Reply(500, NotJson);
            var t := Send(env, text, timeout, 1, transport);
            !t.sent && |t.posts| == 2 && t.sleeps == [] &&
            AttemptsIntended(MakePost(env, text, timeout), transport, 0, 1).sleeps == [1]
  {
    var transport := (i: nat) => Reply(500, NotJson);
    var post := MakePost(env, text, timeout);
    assert Classify(transport(0)) == FailedSkipBackoff;
    assert Classify(transport(1)) == FailedSkipBackoff;
    assert Attempts(post, transport, 2, 1) == Trace(false, [], []);
    assert Attempts(post, transport, 1, 1) == Trace(false, [post], []);
  }

  /** As written, a server that answers every attempt with an HTTP error
      status is tried on every iteration without any pause, whatever
      `retries` is, and the call fails. */
  lemma {:induction false} HttpErrorsNeverPause(post: Post, transport: nat -> Response, attempt: nat, retries: int)
    requires forall i: nat :: transport(i).Reply? && !HttpOk(transport(i).status)
    ensures var t := Attempts(post, transport, attempt, retries);
            !t.sent && |t.posts| == Span(attempt, retries) && t.sleeps == []
    decreases Span(attempt, retries)
  {
    if attempt <= retries {
      assert Classify(transport(attempt)) == FailedSkipBackoff;
      HttpErrorsNeverPause(post, transport, attempt + 1, retries);
    }
  }

  /** The retry loop with the backoff it evidently intends: every failed
      attempt except the last is followed by a `2^attempt` second sleep,
      whatever the cause of the failure. Result and POSTs are those of the
      loop as written; attempt `attempt + j` is followed by the j-th sleep. */
  function AttemptsIntended(post: Post, transport: nat -> Response, attempt: nat, retries: int): (t: Trace)
    ensures t.sent == Attempts(post, transport, attempt, retries).sent
    ensures t.posts == Attempts(post, transport, attempt, retries).posts
    ensures attempt <= retries ==> |t.posts| >= 1
    ensures |t.sleeps| == (if |t.posts| == 0 then 0 else |t.posts| - 1)
    ensures forall j :: 0 <= j < |t.sleeps| ==> t.sleeps[j] == Pow2(attempt + j)
    decreases Span(attempt, retries)
  {
    if attempt > retries then Trace(false, [], [])
    else if Succeeds(transport(attempt)) then Trace(true, [post], [])
    else
      var pause := if attempt < retries then [Pow2(attempt)] else [];
      var rest := AttemptsIntended(post, transport, attempt + 1, retries);
      Trace(rest.sent, [post] + rest.posts, pause + rest.sleeps)
  }

  /** With the intended backoff, a call whose every attempt fails sleeps
      `2^attempt + ... + 2^(retries-1) = 2^retries - 2^attempt` seconds; from
      attempt 0 that is `2^retries - 1`. */
  lemma {:induction false} IntendedAllFailBackoff(post: Post, transport: nat -> Response, attempt: nat, retries: nat)
    requires attempt <= retries
    requires forall i :: attempt <= i <= retries ==> !Succeeds(transport(i))
    ensures var t := AttemptsIntended(post, transport, attempt, retries);
            !t.sent && Sum(t.sleeps) == Pow2(retries) - Pow2(attempt)
    decreases retries - attempt
  {
    AttemptsExhaust(post, transport, attempt, retries);
    if attempt < retries {
      IntendedAllFailBackoff(post, transport, attempt + 1, retries);
      var rest := AttemptsIntended(post, transport, attempt + 1, retries);
      var t := AttemptsIntended(post, transport, attempt, retries);
      assert t.sleeps == [Pow2(attempt)] + rest.sleeps;
      assert t.sleeps[1..] == rest.sleeps;
    }
  }
}
