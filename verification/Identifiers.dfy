// gen_random_uuid(): all that is used of an identifier is that it is new.
module Identifiers {
  method NewToken(used: set<nat>) returns (token: nat)
    ensures token !in used
  {
    token := 0;
    var rest := used;
    while rest != {}
      invariant forall u | u in used :: u in rest || u < token
      decreases |rest|
    {
      var t :| t in rest;
      rest := rest - {t};
      token := if token < t + 1 then t + 1 else token;
    }
  }

  // Longer than every identifier in use.
  method NewId(used: set<string>) returns (id: string)
    ensures id !in used
  {
    id := "r";
    var rest := used;
    while rest != {}
      invariant forall u | u in used :: u in rest || |u| < |id|
      decreases |rest|
    {
      var u :| u in rest;
      rest := rest - {u};
      id := if |id| < |u| + 1 then u + "r" else id;
    }
  }
}
