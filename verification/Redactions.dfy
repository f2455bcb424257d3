/**
  The redaction that audit events pass before the learner reads them. It is a parameter of the
  model; what it does to one common shape of names is given as an example.
 */
module Redactions {
  /** A redaction leaves something of everything but the empty string. */
  ghost predicate KeepsEmptiness(redact: string -> string) {
    forall s :: redact(s) == "" <==> s == ""
  }

  type Redaction = f: string -> string | KeepsEmptiness(f) witness (s: string) => s

  predicate Contains(s: string, term: string) {
    term <= s || (s != "" && Contains(s[1..], term))
  }

  function Lower(s: string): (t: string)
    ensures |t| == |s|
  {
    seq(|s|, i requires 0 <= i < |s| => if 'A' <= s[i] <= 'Z' then s[i] - 'A' + 'a' else s[i])
  }

  const REDACTED := "[REDACTED]"

  /**
    What the last secret pattern makes of a name: one run of letters, digits and the characters
    "._:-" that begins and ends with a letter or digit.
   */
  function MaskName(s: string): string {
    if Contains(Lower(s), "token") || Contains(Lower(s), "secret") || Contains(Lower(s), "password") then REDACTED else s
  }

  lemma MaskNameIsRedaction()
    ensures KeepsEmptiness(MaskName)
  {
    assert !Contains("", "token") && !Contains("", "secret") && !Contains("", "password");
    assert Lower("") == "";
  }

  /** A name that mentions a secret is never shown, by itself or for another name. */
  lemma MaskedIsNeverShown(name: string)
    requires Contains(Lower(name), "token") || Contains(Lower(name), "secret") || Contains(Lower(name), "password")
    requires name != REDACTED
    ensures forall s :: MaskName(s) != name
  {
  }

  lemma GetSecretIsMasked()
    ensures Contains(Lower("get-secret"), "secret") && MaskName("get-secret") == REDACTED != "get-secret"
  {
    var s := Lower("get-secret");
    assert s == "get-secret";
    assert s[1..] == "et-secret" && s[1..][1..] == "t-secret" && s[1..][1..][1..] == "-secret" && s[1..][1..][1..][1..] == "secret";
    assert Contains(s[1..][1..][1..][1..], "secret");
    assert Contains(s[1..][1..][1..], "secret");
    assert Contains(s[1..][1..], "secret");
    assert Contains(s[1..], "secret");
  }
}
