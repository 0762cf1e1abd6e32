// What the three WebSocket objects share: error codes, and counting in sequences.
module Asio {
  datatype ErrorCode = Success | OperationAborted | MessageSize | NetworkDown | Transport(code: nat)

  // A connection pointer of websocketpp.
  type Connection = nat

  function Count(s: seq<nat>, x: nat): nat {
    multiset(s)[x]
  }

  lemma CountAppend(a: seq<nat>, b: seq<nat>, x: nat)
    ensures Count(a + b, x) == Count(a, x) + Count(b, x)
  {
  }

  // What occurs at most once is not found at two places.
  lemma NoRepeats(s: seq<nat>, i: nat, j: nat)
    requires i < j < |s| && Count(s, s[j]) <= 1
    ensures s[i] != s[j]
  {
    assert s == s[..j] + s[j..];
    CountAppend(s[..j], s[j..], s[j]);
    assert s[i] in s[..j] && s[j..][0] == s[j];
  }
}
