/**
 * The provider registry of the side panel: the fixed table that maps a
 * hostname fragment to the name of the hosted chat service, scanned in
 * declaration order with substring matching (`hostname.includes(domain)`).
 */
module Registry {
  import opened Wrappers

  /** `t` occurs in `s` starting at index `i`. */
  ghost predicate OccursAt(s: string, t: string, i: int)
  {
    0 <= i && i + |t| <= |s| && s[i..i + |t|] == t
  }

  lemma OccursShift(s: string, t: string)
    requires |s| > 0
    ensures forall i :: 0 <= i ==> (OccursAt(s[1..], t, i) <==> OccursAt(s, t, i + 1))
  {
  }

  /** JavaScript's `String.prototype.includes`: `t` is a substring of `s` (the empty string is in every string). */
  function Includes(s: string, t: string): (r: bool)
    ensures r <==> exists i :: OccursAt(s, t, i)
    decreases |s|
  {
    if |t| == 0 then
      assert OccursAt(s, t, 0);
      true
    else if |s| < |t| then
      false
    else if s[..|t|] == t then
      assert OccursAt(s, t, 0);
      true
    else
      assert !OccursAt(s, t, 0);
      OccursShift(s, t);
      assert forall i :: OccursAt(s, t, i) ==> i == 0 || OccursAt(s[1..], t, i - 1);
      Includes(s[1..], t)
  }

  /** The `DOMAIN_TO_PROVIDER` table, in the insertion order in which it is scanned. */
  const DomainToProvider: seq<(string, string)> := [
    ("gemini.google.com", "Gemini"),
    ("chatgpt.com", "ChatGPT"),
    ("claude.ai", "Claude"),
    ("anthropic.com", "Claude"),
    ("chat.deepseek.com", "DeepSeek"),
    ("grok.com", "Grok"),
    ("x.com", "Grok")
  ]

  /** Entry `k` of `table` is the first whose domain occurs in `hostname`. */
  ghost predicate IsFirstMatch(table: seq<(string, string)>, hostname: string, k: int)
  {
    0 <= k < |table| && Includes(hostname, table[k].0) &&
    forall j :: 0 <= j < k ==> !Includes(hostname, table[j].0)
  }

  /** The index of the first table entry whose domain is a substring of `hostname`, if any. */
  function FirstMatch(table: seq<(string, string)>, hostname: string): (r: Option<nat>)
    ensures r.Some? ==> IsFirstMatch(table, hostname, r.value)
    ensures r.None? ==> forall j :: 0 <= j < |table| ==> !Includes(hostname, table[j].0)
  {
    if table == [] then None
    else if Includes(hostname, table[0].0) then Some(0)
    else
      match FirstMatch(table[1..], hostname)
      case None => None
      case Some(k) => Some(k + 1)
  }

  /** The provider that `handleSessionUpdate` attributes `hostname` to. */
  function Resolve(hostname: string): (r: Option<string>)
    ensures r.Some? ==> exists k :: IsFirstMatch(DomainToProvider, hostname, k) && DomainToProvider[k].1 == r.value
    ensures r.None? ==> forall j :: 0 <= j < |DomainToProvider| ==> !Includes(hostname, DomainToProvider[j].0)
  {
    match FirstMatch(DomainToProvider, hostname)
    case None => None
    case Some(k) => Some(DomainToProvider[k].1)
  }

  /**
   * Resolution picks exactly the first matching entry: a provider is returned
   * iff some entry names it, matches, and no earlier entry matches; and none is
   * returned iff no entry matches.
   */
  lemma ResolveIsFirstMatch(hostname: string, p: string)
    ensures Resolve(hostname) == Some(p) <==>
      exists k :: IsFirstMatch(DomainToProvider, hostname, k) && DomainToProvider[k].1 == p
    ensures Resolve(hostname) == None <==>
      forall j :: 0 <= j < |DomainToProvider| ==> !Includes(hostname, DomainToProvider[j].0)
  {
  }

  /** The scan in `handleSessionUpdate`: a loop over the table that stops at the first matching domain. */
  method ResolveProvider(hostname: string) returns (provider: Option<string>)
    ensures provider == Resolve(hostname)
  {
    provider := None;
    var i := 0;
    while i < |DomainToProvider|
      invariant 0 <= i <= |DomainToProvider|
      invariant forall j :: 0 <= j < i ==> !Includes(hostname, DomainToProvider[j].0)
    {
      var (domain, name) := DomainToProvider[i];
      if Includes(hostname, domain) {
        provider := Some(name);
        ResolveIsFirstMatch(hostname, name);
        return;
      }
      i := i + 1;
    }
    ResolveIsFirstMatch(hostname, "");
  }
}
