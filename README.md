# Cross-account greeting Lambda, modelled in Dafny

The repository deploys one AWS Lambda function to a pre-production and a
production account. Its handler (`exports.handler` in `index.js`) reads the
function's own ARN from the Lambda context. The ARN has the shape
`arn:partition:service:region:account-id:resource…`. The handler splits it
on `:`, takes the field at index 4 as the account ID, and compares that ID
by strict equality with two account constants. The answer for API Gateway
is `{statusCode: 200, body}`. The body is the pre-production greeting, the
production greeting, or the empty string for any other account.

The model is pure, like the handler:

- `wrappers.dfy`, module `Wrappers`: `Option`. It stands for a JavaScript
  value that may be `undefined`.
- `js_string.dfy`, module `JsString`: `String.prototype.split` with a
  one-character separator and no limit, plus its inverse
  `Array.prototype.join`. Both round trips are proved. So is the fact that
  `Split` is the only non-empty, separator-free list of pieces that joins
  back to the input.
- `index.dfy`, module `Index`: the two account constants, the context and
  the response records. It also has `AccountId` (`arn.split(':')[4]`),
  `Body` (the if / else-if) and `Handler`. The lemmas say the status is
  always 200 and give the exact body for each account. They also say the
  account ID is exactly the text between the fourth and fifth colon, the
  event is ignored, and the three branches exclude each other.

An ARN with fewer than five colon-separated fields does not make the
handler fail: `split(':')[4]` on a shorter array is `undefined`, which is
not an error in JavaScript, and `undefined` is strictly equal to neither
constant. So the handler answers status 200 with an empty body
(`Index.AccountId`, `Index.ShortArnResponse`).

## Model

| member | source | states |
|---|---|---|
| `JsString.IndexOf` | index.js:5 | the index `split` cuts at is inside the string and holds the separator, and no separator comes before it |
| `JsString.Split` | index.js:5 | `split` gives one more piece than there are separators, and no piece holds the separator |
| `JsString.Join` | index.js:5 | joining n separator-free pieces makes a string with exactly n - 1 separators (the inverse of `split`) |
| `JsString.JoinSplit` | index.js:5 | joining the pieces of `s.split(sep)` with `sep` gives back `s` |
| `JsString.SplitJoin` | index.js:5 | splitting the join of a non-empty list of separator-free pieces gives back that list |
| `JsString.SplitCharacterized` | index.js:5 | a list of pieces is `s.split(sep)` if and only if it is non-empty, holds no separator and joins to `s` |
| `JsString.SplitAround` | index.js:5 | splitting `x + sep + y` gives the pieces of `x` followed by the pieces of `y` |
| `JsString.JoinAppend` | index.js:5 | joining two non-empty lists of pieces puts exactly one separator between the two joins |
| `Index.AccountId` | index.js:3-5 | field 4 of the ARN is `undefined` exactly when the ARN has fewer than four colons, and it never holds a colon |
| `Index.Body` | index.js:8-14 | the body is non-empty exactly when the account ID is one of the two account constants |
| `Index.Handler` | index.js:1-20 | the status code is 200 on every path, and the body is non-empty exactly when the account ID is one of the two constants |
| `Index.AccountIdOfFifthField` | index.js:5 | text placed after the fourth colon and followed by the end or a fifth colon is the extracted account ID |
| `Index.FifthFieldOfAccountId` | index.js:5 | an extracted account ID always sits between the fourth colon and either the fifth colon or the end |
| `Index.AccountIdCharacterized` | index.js:5 | the extracted account ID is `id` if and only if `id` is the ARN's fifth colon-separated field |
| `Index.PreProductionResponse` | index.js:9-10 | an ARN whose fifth field is `30XXXXXXXXXX` gets status 200 and the pre-production greeting for that ID |
| `Index.ProductionResponse` | index.js:12-13 | an ARN whose fifth field is `90XXXXXXXXXX` gets status 200 and the production greeting for that ID |
| `Index.OtherAccountResponse` | index.js:8-14 | any other account in the fifth field gets status 200 and an empty body |
| `Index.ShortArnResponse` | index.js:5-14 | an ARN with fewer than four colons (no field 4) gets status 200 and an empty body, with no fault |
| `Index.EventIgnored` | index.js:1-5 | two calls with the same context and different events return equal responses |
| `Index.GreetingsDistinct` | index.js:9-14 | the pre-production greeting, the production greeting and the empty body are pairwise different, whatever IDs they hold |
| `Index.BranchesExclusive` | index.js:9-14 | each of the three bodies appears exactly when its branch is taken, so one branch at most is seen in any response |
| `Index.JoinAroundFifthField` | index.js:5 | the join of five or more pieces is the first four joined, a colon, field 4, then the rest after a colon |
| `Index.ColonsBeforeFifthField` | index.js:5 | the first four of a list of at least four colon-free pieces join with exactly three colons |

## Left out

- The `async` wrapper and the Promise it returns (index.js:1). This is runtime plumbing, so `Handler` is a plain function.
- The Lambda context beyond `invokedFunctionArn`. The TypeError thrown when that field is missing or not a string is also left out. The context is supplied by the platform.
- The event's structure. The handler never reads it, so it is an unconstrained type parameter `E`.
- JSON serialisation of the response and the API Gateway wire format. The host does these.
- Checks on the ARN's format or on the account ID being 12 digits. The code does none, and the constants are placeholders.
- JavaScript strings are UTF-16 code units, and Dafny's `char` is a Unicode scalar value. Strings with lone surrogates cannot be written in the model. The separator `:` is ASCII, so splitting is otherwise unaffected.
- Deployment, IAM and cross-account pipeline configuration. None of it exists as code.
