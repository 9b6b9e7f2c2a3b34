/** Resolution of a region code to the listener host the client ships to. */
module Region {

  const UsHost := "https://listener.logz.io:8071"
  const CaHost := "https://listener-ca.logz.io:8071"
  const EuHost := "https://listener-eu.logz.io:8071"
  const UkHost := "https://listener-uk.logz.io:8071"
  const AuHost := "https://listener-au.logz.io:8071"
  const NlHost := "https://listener-nl.logz.io:8071"
  const WaHost := "https://listener-wa.logz.io:8071"

  /** The region table: each of the seven codes and its own listener. */
  const Hosts: map<string, string> := map[
    "us" := UsHost, "ca" := CaHost, "eu" := EuHost, "uk" := UkHost,
    "au" := AuHost, "nl" := NlHost, "wa" := WaHost]

  /** `unicode.ToLower` on the characters whose lower case is an ASCII
      letter: the upper-case ASCII letters, the Kelvin sign (to `k`) and the
      capital I with dot above (to `i`). Every other character is kept; the
      lower case Go gives it is not ASCII either, so no region code can
      tell the two apart. */
  function LowerChar(c: char): char
  {
    if 'A' <= c <= 'Z' then (c as int + 32) as char
    else if c == '\U{212A}' then 'k'
    else if c == '\U{0130}' then 'i'
    else c
  }

  /** `strings.ToLower`, as far as the region table can observe it. */
  function Lower(s: string): (r: string)
    ensures |r| == |s|
    ensures forall i :: 0 <= i < |s| ==> r[i] == LowerChar(s[i])
  {
    if s == [] then [] else [LowerChar(s[0])] + Lower(s[1..])
  }

  /** The listener URL `setListenerURL` assigns for `region`. The switch
      runs on the lower-cased code; every other code, the empty one
      included, falls back to the `us` listener. */
  function ListenerUrl(region: string): (url: string)
  {
    match Lower(region)
    case "us" => UsHost
    case "ca" => CaHost
    case "eu" => EuHost
    case "uk" => UkHost
    case "au" => AuHost
    case "nl" => NlHost
    case "wa" => WaHost
    case _ => UsHost
  }

  /** The resolver agrees with the region table, falling back to `us`. */
  lemma ListenerUrlMatchesTable(region: string)
    ensures Lower(region) in Hosts ==> ListenerUrl(region) == Hosts[Lower(region)]
    ensures Lower(region) !in Hosts ==> ListenerUrl(region) == UsHost
    ensures ListenerUrl(region) in Hosts.Values
  {
    assert Hosts["us"] == UsHost;
  }

  /** Lower-casing twice is lower-casing once. */
  lemma {:induction false} LowerIdempotent(s: string)
    ensures Lower(Lower(s)) == Lower(s)
  {
    if s != [] {
      LowerIdempotent(s[1..]);
      assert Lower(s)[1..] == Lower(s[1..]);
    }
  }

  /** Resolution ignores letter case. */
  lemma CaseInsensitive(a: string, b: string)
    requires Lower(a) == Lower(b)
    ensures ListenerUrl(a) == ListenerUrl(b)
  {
  }

  /** In particular a code resolves as its lower-cased form does. */
  lemma {:induction false} ResolvesAsLowerCase(region: string)
    ensures ListenerUrl(region) == ListenerUrl(Lower(region))
  {
    LowerIdempotent(region);
  }

  /** The seven recognised codes name seven different listeners. */
  lemma HostsDistinct(a: string, b: string)
    requires a in Hosts && b in Hosts && a != b
    ensures Hosts[a] != Hosts[b]
  {
  }

  /** The recognised codes of the repository's table test. */
  lemma ListenerUrlExamples()
    ensures ListenerUrl("us") == UsHost && ListenerUrl("eu") == EuHost
    ensures ListenerUrl("au") == AuHost && ListenerUrl("ca") == CaHost
    ensures ListenerUrl("uk") == UkHost
  {
    assert Lower("us") == "us" && Lower("eu") == "eu" && Lower("au") == "au";
    assert Lower("ca") == "ca" && Lower("uk") == "uk";
  }

  /** Every recognised code has two letters, so any other length falls back. */
  lemma FallbackUnlessTwoLetters(region: string)
    requires |region| != 2
    ensures ListenerUrl(region) == UsHost
  {
    assert |Lower(region)| != 2;
  }

  /** The fallback codes of the repository's table test. */
  lemma ListenerUrlFallbackExamples()
    ensures ListenerUrl("not-valid") == UsHost && ListenerUrl("") == UsHost
  {
    FallbackUnlessTwoLetters("not-valid");
    FallbackUnlessTwoLetters("");
  }

  /** The mixed-case codes of the repository's table test. */
  lemma ListenerUrlMixedCaseExamples()
    ensures ListenerUrl("US") == UsHost && ListenerUrl("Us") == UsHost
    ensures ListenerUrl("EU") == EuHost
  {
    assert Lower("US") == "us";
    assert Lower("Us") == "us";
    assert Lower("EU") == "eu";
  }

  /** `strings.ToLower` maps the Kelvin sign to an ASCII `k`, so `u`
      followed by it resolves to the `uk` listener. */
  lemma KelvinSignResolvesToUk()
    ensures ListenerUrl("u\U{212A}") == UkHost
  {
    assert Lower("u\U{212A}") == "uk";
  }
}
