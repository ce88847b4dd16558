/**
 * The monitor server's connection-token check: a token is accepted when it is
 * present, not empty, and equal to the token the server was started with.
 */
module TokenValidator {
  import opened Wrappers

  datatype TokenValidator = TokenValidator(expectedToken: string)
  {
    /** `Validate`; a missing token is `None`. Exactly the expected token is accepted, and only when it is not empty. */
    function Validate(token: Option<string>): (r: bool)
      ensures r <==> token == Some(expectedToken) && expectedToken != ""
    {
      token.Some? && token.value != "" && token.value == expectedToken
    }
  }

  lemma MissingOrEmptyRejected(v: TokenValidator)
    ensures !v.Validate(None) && !v.Validate(Some(""))
  {
  }

  lemma DifferentRejected(v: TokenValidator, token: string)
    requires token != v.expectedToken
    ensures !v.Validate(Some(token))
  {
  }

  /** A validator started with the empty token accepts nothing. */
  lemma EmptyExpectedRejectsAll(token: Option<string>)
    ensures !TokenValidator("").Validate(token)
  {
  }
}
