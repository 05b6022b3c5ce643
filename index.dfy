/**
  The Lambda handler: it takes the account ID out of the function's own
  ARN (`arn:partition:service:region:account-id:resource...`) and answers
  with a greeting for the pre-production or the production account, or
  with an empty body for any other account.
 */
module Index {

  import opened Wrappers
  import opened JsString

  const PRE_PRODUCTION_ACCOUNT_ID: string := "30XXXXXXXXXX"
  const PRODUCTION_ACCOUNT_ID: string := "90XXXXXXXXXX"

  /** The one field of the Lambda context the handler reads. */
  datatype Context = Context(invokedFunctionArn: string)

  /** What the handler returns to API Gateway. */
  datatype Response = Response(statusCode: int, body: string)

  function PreProductionGreeting(id: string): string
  {
    "Welcome to my Pre-Production Account " + id + " world of serverless computing"
  }

  function ProductionGreeting(id: string): string
  {
    "Welcome to my Production Account " + id + " world of serverless computing"
  }

  /**
    `arn.split(':')[4]`. Indexing past the end of a JavaScript array gives
    `undefined`, so it is `undefined` exactly when the ARN has fewer than
    four colons, and otherwise it never holds a colon.
   */
  function AccountId(arn: string): (id: Option<string>)
    ensures id.None? <==> Occurrences(arn, ':') < 4
    ensures id.Some? ==> ':' !in id.value
  {
    var parts := Split(arn, ':');
    if |parts| > 4 then Some(parts[4]) else None
  }

  /**
    The body the if / else-if chooses. `undefined` is strictly equal to
    neither constant, so a missing account ID gives the empty body.
   */
  function Body(id: Option<string>): (body: string)
    ensures body != "" <==> id == Some(PRE_PRODUCTION_ACCOUNT_ID) || id == Some(PRODUCTION_ACCOUNT_ID)
  {
    match id
    case None => ""
    case Some(s) =>
      if s == PRE_PRODUCTION_ACCOUNT_ID then PreProductionGreeting(s)
      else if s == PRODUCTION_ACCOUNT_ID then ProductionGreeting(s)
      else ""
  }

  /**
    `exports.handler`. The event (any JSON value) is a type parameter: the
    handler never looks at it. The status is 200 on every path, and the
    body is non-empty exactly when the account is one of the two known ones.
   */
  function Handler<E>(event: E, context: Context): (response: Response)
    ensures response.statusCode == 200
    ensures response.body != "" <==>
              AccountId(context.invokedFunctionArn) in {Some(PRE_PRODUCTION_ACCOUNT_ID), Some(PRODUCTION_ACCOUNT_ID)}
  {
    var id := AccountId(context.invokedFunctionArn);
    Response(200, Body(id))
  }

  /**
    `id` is the text between the fourth and the fifth colon of `arn`, or
    between the fourth colon and the end: `before` holds three colons, `id`
    none, and `after` is empty or starts with the fifth colon.
   */
  predicate FifthFieldAt(arn: string, before: string, id: string, after: string)
  {
    && arn == before + [':'] + id + after
    && Occurrences(before, ':') == 3
    && ':' !in id
    && (after == [] || after[0] == ':')
  }

  lemma {:induction false} AccountIdOfFifthField(arn: string, before: string, id: string, after: string)
    requires FifthFieldAt(arn, before, id, after)
    ensures AccountId(arn) == Some(id)
  {
    var tail := Split(id + after, ':');
    assert tail[0] == id by {
      if after == [] {
        assert id + after == id;
      } else {
        assert id + after == id + [':'] + after[1..];
        SplitAround(id, after[1..], ':');
      }
    }
    assert Split(arn, ':') == Split(before, ':') + tail by {
      ConcatAssociative(before + [':'], id, after);
      SplitAround(before, id + after, ':');
    }
  }

  /** The pieces from index 4 on join to field 4 and what follows it. */
  lemma JoinAroundFifthField(parts: seq<string>)
    requires |parts| >= 5
    ensures Join(parts, ':') ==
              Join(parts[..4], ':') + [':'] + (parts[4] + (if |parts| == 5 then "" else [':'] + Join(parts[5..], ':')))
  {
    assert parts == parts[..4] + parts[4..];
    JoinAppend(parts[..4], parts[4..], ':');
    JoinFrom(parts, 4, ':');
    if |parts| == 5 {
      assert parts[4] + "" == parts[4];
    } else {
      ConcatAssociative(parts[4], [':'], Join(parts[5..], ':'));
    }
  }

  /** The first four pieces of a split join with exactly three colons. */
  lemma ColonsBeforeFifthField(parts: seq<string>)
    requires |parts| >= 4
    requires forall k :: 0 <= k < |parts| ==> ':' !in parts[k]
    ensures Occurrences(Join(parts[..4], ':'), ':') == 3
  {
    assert forall k :: 0 <= k < 4 ==> parts[..4][k] == parts[k];
  }

  lemma {:induction false} FifthFieldOfAccountId(arn: string)
    requires AccountId(arn).Some?
    ensures exists before, after :: FifthFieldAt(arn, before, AccountId(arn).value, after)
  {
    var parts := Split(arn, ':');
    var id := parts[4];
    var before := Join(parts[..4], ':');
    var after := if |parts| == 5 then "" else [':'] + Join(parts[5..], ':');
    assert arn == before + [':'] + id + after by {
      JoinSplit(arn, ':');
      JoinAroundFifthField(parts);
      ConcatAssociative(before + [':'], id, after);
    }
    assert Occurrences(before, ':') == 3 by {
      ColonsBeforeFifthField(parts);
    }
    assert FifthFieldAt(arn, before, id, after);
    assert id == AccountId(arn).value;
  }

  /** The account ID is exactly the fifth colon-separated field of the ARN. */
  lemma AccountIdCharacterized(arn: string, id: string)
    ensures AccountId(arn) == Some(id) <==> exists before, after :: FifthFieldAt(arn, before, id, after)
  {
    if AccountId(arn) == Some(id) {
      FifthFieldOfAccountId(arn);
    }
    if before, after :| FifthFieldAt(arn, before, id, after) {
      AccountIdOfFifthField(arn, before, id, after);
    }
  }

  lemma PreProductionResponse<E>(event: E, arn: string, before: string, after: string)
    requires FifthFieldAt(arn, before, PRE_PRODUCTION_ACCOUNT_ID, after)
    ensures Handler(event, Context(arn)) ==
              Response(200, "Welcome to my Pre-Production Account " + PRE_PRODUCTION_ACCOUNT_ID + " world of serverless computing")
  {
    AccountIdOfFifthField(arn, before, PRE_PRODUCTION_ACCOUNT_ID, after);
  }

  lemma ProductionResponse<E>(event: E, arn: string, before: string, after: string)
    requires FifthFieldAt(arn, before, PRODUCTION_ACCOUNT_ID, after)
    ensures Handler(event, Context(arn)) ==
              Response(200, "Welcome to my Production Account " + PRODUCTION_ACCOUNT_ID + " world of serverless computing")
  {
    AccountIdOfFifthField(arn, before, PRODUCTION_ACCOUNT_ID, after);
  }

  /** Any other account in the fifth field gives status 200 and an empty body. */
  lemma OtherAccountResponse<E>(event: E, arn: string, before: string, id: string, after: string)
    requires FifthFieldAt(arn, before, id, after)
    requires id != PRE_PRODUCTION_ACCOUNT_ID && id != PRODUCTION_ACCOUNT_ID
    ensures Handler(event, Context(arn)) == Response(200, "")
  {
    AccountIdOfFifthField(arn, before, id, after);
  }

  /**
    An ARN with fewer than five fields has no index 4; the handler does not
    fail but answers status 200 with an empty body.
   */
  lemma ShortArnResponse<E>(event: E, arn: string)
    requires Occurrences(arn, ':') < 4
    ensures Handler(event, Context(arn)) == Response(200, "")
  {
  }

  /** The response depends on the ARN alone, never on the event. */
  lemma EventIgnored<E>(event1: E, event2: E, context: Context)
    ensures Handler(event1, context) == Handler(event2, context)
  {
  }

  /** The three possible bodies are pairwise different. */
  lemma GreetingsDistinct(x: string, y: string)
    ensures PreProductionGreeting(x) != ProductionGreeting(y)
    ensures PreProductionGreeting(x) != "" && ProductionGreeting(y) != ""
  {
    assert PreProductionGreeting(x)[16] == 'e';
    assert ProductionGreeting(y)[16] == 'o';
  }

  /**
    The branches exclude each other: the body shows which one was taken,
    and each is taken exactly when the account ID selects it.
   */
  lemma BranchesExclusive<E>(event: E, context: Context)
    ensures var body, id := Handler(event, context).body, AccountId(context.invokedFunctionArn);
      && (body == PreProductionGreeting(PRE_PRODUCTION_ACCOUNT_ID) <==> id == Some(PRE_PRODUCTION_ACCOUNT_ID))
      && (body == ProductionGreeting(PRODUCTION_ACCOUNT_ID) <==> id == Some(PRODUCTION_ACCOUNT_ID))
      && (body == "" <==> id != Some(PRE_PRODUCTION_ACCOUNT_ID) && id != Some(PRODUCTION_ACCOUNT_ID))
  {
    GreetingsDistinct(PRE_PRODUCTION_ACCOUNT_ID, PRODUCTION_ACCOUNT_ID);
  }
}
