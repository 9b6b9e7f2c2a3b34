/** Validation of the shipping credentials carried in the request headers. */
module Credentials {
  import opened Values

  const TokenHeader := "logzio_token"
  const RegionHeader := "logzio_region"

  /** The token pattern `[a-zA-Z]{32}` asks for this many letters in a row. */
  const TokenLetters := 32

  /** The region codes the validator accepts, compared case-sensitively. */
  const ValidRegions: seq<string> := ["us", "au", "wa", "nl", "ca", "eu", "uk"]

  predicate IsAsciiLetter(c: char)
  {
    'a' <= c <= 'z' || 'A' <= c <= 'Z'
  }

  /** `s[i..i+n]` consists of ASCII letters. */
  predicate LettersAt(s: string, i: nat, n: nat)
    requires i + n <= |s|
  {
    forall j :: i <= j < i + n ==> IsAsciiLetter(s[j])
  }

  /** The unanchored pattern `[a-zA-Z]{n}` matches somewhere in `s`. */
  ghost predicate HasLetterRun(s: string, n: nat)
  {
    exists i: nat :: i + n <= |s| && LettersAt(s, i, n)
  }

  /** A left-to-right scan that counts the letters ending just before
      position `i` and succeeds once the count reaches `n`. */
  function ScanLetterRun(s: string, n: nat, i: nat, run: nat): bool
    requires i <= |s| && run <= i
    decreases |s| - i
  {
    if run >= n then true
    else if i == |s| then false
    else ScanLetterRun(s, n, i + 1, if IsAsciiLetter(s[i]) then run + 1 else 0)
  }

  /** `regexp.MatchString("[a-zA-Z]{n}", s)`. */
  function MatchesLetterRun(s: string, n: nat): (m: bool)
    ensures m <==> HasLetterRun(s, n)
  {
    ScanCorrect(s, n, 0, 0);
    ScanLetterRun(s, n, 0, 0)
  }

  /** A window of `n` letters ending at `e` exists exactly when the letter
      run ending at `e` is at least `n` long. */
  lemma WindowAtEnd(s: string, n: nat, e: nat, run: nat)
    requires e <= |s| && run <= e
    requires LettersAt(s, e - run, run)
    requires e - run == 0 || !IsAsciiLetter(s[e - run - 1])
    ensures n <= e && LettersAt(s, e - n, n) <==> run >= n
  {
    if run < n <= e {
      assert e - n <= e - run - 1 < e && !IsAsciiLetter(s[e - run - 1]);
    }
  }

  /** The scan is correct from any state in which `run` is the length of
      the letter run ending at `i` and no earlier window matched. */
  lemma {:induction false} ScanCorrect(s: string, n: nat, i: nat, run: nat)
    requires i <= |s| && run <= i
    requires LettersAt(s, i - run, run)
    requires i - run == 0 || !IsAsciiLetter(s[i - run - 1])
    requires forall k: nat :: k + n <= i - 1 ==> !LettersAt(s, k, n)
    requires run < n ==> forall k: nat :: k + n <= i ==> !LettersAt(s, k, n)
    ensures ScanLetterRun(s, n, i, run) <==> HasLetterRun(s, n)
    decreases |s| - i
  {
    if run >= n {
      assert LettersAt(s, i - n, n);
    } else if i == |s| {
    } else {
      var run' := if IsAsciiLetter(s[i]) then run + 1 else 0;
      assert LettersAt(s, i + 1 - run', run');
      WindowAtEnd(s, n, i + 1, run');
      forall k: nat | k + n <= i + 1 && run' < n
        ensures !LettersAt(s, k, n)
      {
        if k + n == i + 1 {
          assert !LettersAt(s, i + 1 - n, n);
        }
      }
      ScanCorrect(s, n, i + 1, run');
    }
  }

  datatype CredentialError =
    | TokenNotFound
    | TokenNotValid
    | RegionNotFound
    | RegionNotValid

  function ErrorMessage(e: CredentialError): string
  {
    match e
    case TokenNotFound => "logzio_token header not found"
    case TokenNotValid => "logzio token is not valid"
    case RegionNotFound => "logzio_region header not found"
    case RegionNotValid => "logzio_region header value is not valid"
  }

  /** The validator's three results: token, region and error. */
  datatype Credentials = Credentials(token: string, region: string, err: Option<CredentialError>)

  ghost predicate ValidToken(token: string)
  {
    token != "" && HasLetterRun(token, TokenLetters)
  }

  ghost predicate ValidRegion(region: string)
  {
    region != "" && region in ValidRegions
  }

  /** Reads and validates both headers, the token first. */
  function GetCredentialsFromHeaders(headers: map<string, string>): (r: Credentials)
    ensures var token, region := Header(headers, TokenHeader), Header(headers, RegionHeader);
      && (r.err.None? <==> ValidToken(token) && ValidRegion(region))
      && (r.err.None? ==> r.token == token && r.region == region)
      && (r.err.Some? ==> r.token == "" && r.region == "")
      && (r.err == Some(TokenNotFound) <==> token == "")
      && (r.err == Some(TokenNotValid) <==> token != "" && !HasLetterRun(token, TokenLetters))
      && (r.err == Some(RegionNotFound) <==> ValidToken(token) && region == "")
      && (r.err == Some(RegionNotValid) <==> ValidToken(token) && region != "" && region !in ValidRegions)
  {
    var token := Header(headers, TokenHeader);
    if token == "" then Credentials("", "", Some(TokenNotFound))
    else if !MatchesLetterRun(token, TokenLetters) then Credentials("", "", Some(TokenNotValid))
    else
      var region := Header(headers, RegionHeader);
      if region == "" then Credentials("", "", Some(RegionNotFound))
      else if region !in ValidRegions then Credentials("", "", Some(RegionNotValid))
      else Credentials(token, region, None)
  }

  function Headers(token: string, region: string): map<string, string>
  {
    map[TokenHeader := token, RegionHeader := region]
  }

  /** The accepted case of the repository's table test. */
  lemma AcceptsValidCredentials()
    ensures GetCredentialsFromHeaders(Headers("validbIyXnVFJAhojiALQuKzOmQtoken", "us"))
      == Credentials("validbIyXnVFJAhojiALQuKzOmQtoken", "us", None)
  {
    SampleTokenValid();
  }

  /** The pattern is not anchored: 32 letters after a tab pass the check. */
  lemma AcceptsTabbedToken()
    ensures GetCredentialsFromHeaders(Headers("\tvalidbIyXnVFJAhojiALQuKzOmQtoken", "us"))
      == Credentials("\tvalidbIyXnVFJAhojiALQuKzOmQtoken", "us", None)
  {
    assert LettersAt("\tvalidbIyXnVFJAhojiALQuKzOmQtoken", 1, TokenLetters);
  }

  /** The rejected cases of the repository's table test; the upper-case
      region is rejected by the validator, unlike the resolver. */
  lemma RejectsInvalidCredentials()
    ensures GetCredentialsFromHeaders(Headers("token", "us")).err == Some(TokenNotValid)
    ensures GetCredentialsFromHeaders(Headers("token", "ewr")).err == Some(TokenNotValid)
    ensures GetCredentialsFromHeaders(Headers("", "")).err == Some(TokenNotFound)
    ensures GetCredentialsFromHeaders(Headers("", "us")).err == Some(TokenNotFound)
  {
  }

  /** The well-formed token of the repository's table test. */
  lemma {:induction false} SampleTokenValid()
    ensures ValidToken("validbIyXnVFJAhojiALQuKzOmQtoken")
  {
    assert LettersAt("validbIyXnVFJAhojiALQuKzOmQtoken", 0, TokenLetters);
  }

  /** A region outside the list is rejected, and the comparison is
      case-sensitive: `US` is rejected although the resolver accepts it. */
  lemma RejectsUnlistedRegions()
    ensures GetCredentialsFromHeaders(Headers("validbIyXnVFJAhojiALQuKzOmQtoken", "not-valid")).err
      == Some(RegionNotValid)
    ensures GetCredentialsFromHeaders(Headers("validbIyXnVFJAhojiALQuKzOmQtoken", "US")).err
      == Some(RegionNotValid)
  {
    SampleTokenValid();
  }

  lemma RejectsMissingRegion()
    ensures GetCredentialsFromHeaders(Headers("validbIyXnVFJAhojiALQuKzOmQtoken", "")).err
      == Some(RegionNotFound)
  {
    SampleTokenValid();
  }
}
