/** The chat message record shared by the chat hook and the session store
    (both source files declare the same `Msg` shape). */
module Transcript {

  datatype Role = User | Assistant

  datatype Msg = Msg(role: Role, content: string)

  /** How many messages of the transcript have the given role. */
  function CountRole(msgs: seq<Msg>, role: Role): (n: nat)
    ensures n <= |msgs|
  {
    if msgs == [] then 0
    else CountRole(msgs[..|msgs| - 1], role) + (if msgs[|msgs| - 1].role == role then 1 else 0)
  }

  lemma {:induction false} CountRoleAppend(a: seq<Msg>, b: seq<Msg>, role: Role)
    ensures CountRole(a + b, role) == CountRole(a, role) + CountRole(b, role)
    decreases |b|
  {
    if b == [] {
      assert a + b == a;
    } else {
      var ab := a + b;
      assert ab[..|ab| - 1] == a + b[..|b| - 1];
      assert ab[|ab| - 1] == b[|b| - 1];
      CountRoleAppend(a, b[..|b| - 1], role);
    }
  }
}
