// The collectors of internal/telemetry/metrics.go: a counter is the multiset of its increments'
// labels, a histogram the multiset of its samples' labels.

module Telemetry {
  const CHAT_PATH: string := "/v1/chat/completions"

  // Statuses the middleware itself takes a duration sample for on the chat path.
  predicate FailureClass(status: int) {
    status >= 500 || status == 401 || status == 429
  }

  // Tokens counted by key, model and direction.
  type TokenCounts = multiset<(string, string, string)>

  class Metrics {
    var requests: multiset<(string, string, int)>
    var durations: multiset<(string, string)>
    var tokens: TokenCounts
    var upstreamErrors: multiset<string>

    constructor ()
      ensures requests == multiset{} && durations == multiset{} && tokens == multiset{} && upstreamErrors == multiset{}
    {
      requests, durations, tokens, upstreamErrors := multiset{}, multiset{}, multiset{}, multiset{};
    }

    // What the middleware does once the wrapped handler has returned.
    method ObserveServed(verb: string, path: string, status: int)
      modifies this`requests, this`durations
      ensures requests == old(requests) + multiset{(verb, path, status)}
      ensures durations == old(durations)
                         + if path != "/v1/chat/completions" || status == 401 || status == 429 || 500 <= status
                           then multiset{(path, "")} else multiset{}
    {
      requests := requests + multiset{(verb, path, status)};
      if path != CHAT_PATH || status >= 500 || status == 401 || status == 429 {
        durations := durations + multiset{(path, "")};
      }
    }
  }
}
