/** The username rule of routes/linkfy/service.go: three checks in a fixed
    order (empty, a space, the character class), each with its own message. */
module LinkfyService {
  import opened Http

  const EmptyUsernameMsg := "Username cannot be empty"
  const SpaceUsernameMsg := "Username cannot contain spaces"
  const CharsetUsernameMsg := "Username can only contain letters, numbers, dots, and hyphens"

  /** One character of the class `[a-zA-Z0-9.-]`. */
  predicate IsUsernameChar(c: char) {
    ('a' <= c <= 'z') || ('A' <= c <= 'Z') || ('0' <= c <= '9') || c == '.' || c == '-'
  }

  /** The anchored pattern `^[a-zA-Z0-9.-]+$`, matched one character at a
      time: a class character, then either the end or another match. */
  predicate MatchesUsernamePattern(s: string) {
    |s| > 0 && IsUsernameChar(s[0]) && (|s| == 1 || MatchesUsernamePattern(s[1..]))
  }

  /** The pattern accepts exactly the non-empty strings all of whose
      characters are in the class: no positional rule. */
  lemma {:induction false} PatternMeansCharset(s: string)
    ensures MatchesUsernamePattern(s) <==> |s| > 0 && forall i :: 0 <= i < |s| ==> IsUsernameChar(s[i])
  {
    if |s| > 1 {
      PatternMeansCharset(s[1..]);
      assert forall i :: 1 <= i < |s| ==> s[i] == s[1..][i - 1];
    }
  }

  /** `None` when the username is acceptable, otherwise the one 400 error
      for the first check it fails. */
  function UsernameSanitize(username: string): (r: Option<CustomError>)
    ensures username == "" ==> r == Some(CustomError(StatusBadRequest, EmptyUsernameMsg))
    ensures username != "" && ' ' in username ==> r == Some(CustomError(StatusBadRequest, SpaceUsernameMsg))
    ensures username != "" && ' ' !in username ==>
      r == if forall i :: 0 <= i < |username| ==> IsUsernameChar(username[i]) then None
           else Some(CustomError(StatusBadRequest, CharsetUsernameMsg))
    ensures r == None <==> |username| > 0 && forall i :: 0 <= i < |username| ==> IsUsernameChar(username[i])
  {
    PatternMeansCharset(username);
    if |username| == 0 then Some(CustomError(StatusBadRequest, EmptyUsernameMsg))
    else if ' ' in username then Some(CustomError(StatusBadRequest, SpaceUsernameMsg))
    else if !MatchesUsernamePattern(username) then Some(CustomError(StatusBadRequest, CharsetUsernameMsg))
    else None
  }

  /** Dots and hyphens may stand anywhere, even alone: ".", "-" and "-.-"
      are valid usernames. */
  lemma {:induction false} PunctuationOnlyAccepted(s: string)
    requires |s| > 0 && forall i :: 0 <= i < |s| ==> s[i] == '.' || s[i] == '-'
    ensures MatchesUsernamePattern(s)
    ensures UsernameSanitize(s) == None
  {
    PatternMeansCharset(s);
  }
}
