/**
 * The navigation decision of the embedded page (`ClaudeWebPage`): for every
 * navigation request the page says whether the embedded view may load it,
 * and whether the URL is handed to the system browser instead.
 */
module Navigation {
  import opened Text

  /** The navigation kinds the browser engine reports. */
  datatype NavigationType =
    | LinkClicked | Typed | FormSubmitted | BackForward | Reload | Redirect | Other

  /** `accept` is the value returned to the engine; `openExternally` is the hand-off to the system browser. */
  datatype Decision = Decision(accept: bool, openExternally: bool)

  const AllowedDomains: seq<string> := ["claude.ai", "anthropic.com"]

  /** The trust test as written: some allowed domain is a SUBSTRING of the host. */
  predicate HostContainsAllowedDomain(host: string) {
    exists d :: d in AllowedDomains && IsSubstring(d, host)
  }

  /** `acceptNavigationRequest`: trusted hosts load in place, other link clicks go to the system browser, everything else loads. */
  function AcceptNavigationRequest(host: string, navType: NavigationType, isMainFrame: bool): (d: Decision)
    ensures d.accept != d.openExternally
    ensures d.openExternally <==> navType == LinkClicked && !HostContainsAllowedDomain(host)
  {
    if HostContainsAllowedDomain(host) then Decision(true, false)
    else if navType == LinkClicked then Decision(false, true)
    else Decision(true, false)
  }

  /** Any host in which "claude.ai" or "anthropic.com" occurs loads in place, whatever the navigation kind. */
  lemma TrustedHostLoadsInPlace(host: string, navType: NavigationType, isMainFrame: bool)
    requires IsSubstring("claude.ai", host) || IsSubstring("anthropic.com", host)
    ensures AcceptNavigationRequest(host, navType, isMainFrame) == Decision(true, false)
  {
    assert "claude.ai" in AllowedDomains && "anthropic.com" in AllowedDomains;
  }

  /** A link click to a host containing neither domain is refused and handed to the system browser. */
  lemma UntrustedLinkClickHandedOff(host: string, isMainFrame: bool)
    requires !IsSubstring("claude.ai", host) && !IsSubstring("anthropic.com", host)
    ensures AcceptNavigationRequest(host, LinkClicked, isMainFrame) == Decision(false, true)
  {
  }

  /** Every other navigation to an untrusted host (typed, redirect, form, reload, ...) loads in place. */
  lemma UntrustedNonClickLoadsInPlace(host: string, navType: NavigationType, isMainFrame: bool)
    requires navType != LinkClicked
    ensures AcceptNavigationRequest(host, navType, isMainFrame) == Decision(true, false)
  {
  }

  /** The decision is the same for the main frame and for sub-frames; it never both loads and hands off. */
  lemma MainFrameIgnored(host: string, navType: NavigationType)
    ensures AcceptNavigationRequest(host, navType, true) == AcceptNavigationRequest(host, navType, false)
    ensures AcceptNavigationRequest(host, navType, true).accept
            != AcceptNavigationRequest(host, navType, true).openExternally
  {
  }

  /** A host that merely embeds "claude.ai" as a label of another domain is trusted. */
  lemma LookalikeHostTrusted()
    ensures AcceptNavigationRequest("claude.ai.evil.com", LinkClicked, true) == Decision(true, false)
    ensures AcceptNavigationRequest("notanthropic.com", LinkClicked, true) == Decision(true, false)
  {
    assert OccursAt("claude.ai", "claude.ai.evil.com", 0);
    SubstringIffOccurs("claude.ai", "claude.ai.evil.com");
    assert OccursAt("anthropic.com", "notanthropic.com", 3);
    SubstringIffOccurs("anthropic.com", "notanthropic.com");
    TrustedHostLoadsInPlace("claude.ai.evil.com", LinkClicked, true);
    TrustedHostLoadsInPlace("notanthropic.com", LinkClicked, true);
  }

  // ---------------------------------------------------------------------------
  // The evidently intended test: the host IS an allowed domain or a subdomain of one.

  predicate HostInDomain(host: string, domain: string) {
    host == domain || IsSuffix("." + domain, host)
  }

  predicate HostInAllowedDomain(host: string) {
    exists d :: d in AllowedDomains && HostInDomain(host, d)
  }

  /** The same decision table over the domain-or-subdomain test. */
  function AcceptNavigationRequestByDomain(host: string, navType: NavigationType, isMainFrame: bool): Decision {
    if HostInAllowedDomain(host) then Decision(true, false)
    else if navType == LinkClicked then Decision(false, true)
    else Decision(true, false)
  }

  lemma HostInDomainContainsDomain(host: string, domain: string)
    requires HostInDomain(host, domain)
    ensures IsSubstring(domain, host)
  {
    if host == domain {
      assert OccursAt(domain, host, 0);
    } else {
      var p := "." + domain;
      var k := |host| - |p|;
      assert host[k..] == p;
      assert host[k + 1..] == host[k..][1..];
      assert p[1..] == domain;
      assert OccursAt(domain, host, k + 1);
    }
    SubstringIffOccurs(domain, host);
  }

  /**
   * The domain test only narrows the substring test: the two decisions differ
   * exactly on link clicks to hosts the code as written trusts and the domain
   * test does not.
   */
  lemma DomainTestNarrowsSubstringTest(host: string, navType: NavigationType, isMainFrame: bool)
    ensures HostInAllowedDomain(host) ==> HostContainsAllowedDomain(host)
    ensures AcceptNavigationRequestByDomain(host, navType, isMainFrame) != AcceptNavigationRequest(host, navType, isMainFrame)
            <==> navType == LinkClicked && HostContainsAllowedDomain(host) && !HostInAllowedDomain(host)
  {
    if HostInAllowedDomain(host) {
      var d :| d in AllowedDomains && HostInDomain(host, d);
      HostInDomainContainsDomain(host, d);
    }
  }

  /** With the domain test, subdomains are still trusted but the lookalike host is handed off. */
  lemma DomainTestRejectsLookalike()
    ensures AcceptNavigationRequestByDomain("accounts.claude.ai", LinkClicked, true) == Decision(true, false)
    ensures AcceptNavigationRequestByDomain("claude.ai.evil.com", LinkClicked, true) == Decision(false, true)
  {
    assert HostInDomain("accounts.claude.ai", "claude.ai") by {
      assert "accounts.claude.ai"[8..] == ".claude.ai";
    }
    assert !HostInDomain("claude.ai.evil.com", "claude.ai") by {
      assert "claude.ai.evil.com"[8..] != ".claude.ai" by {
        assert "claude.ai.evil.com"[8] == 'i';
      }
    }
    assert !HostInDomain("claude.ai.evil.com", "anthropic.com") by {
      assert "claude.ai.evil.com"[4..] != ".anthropic.com" by {
        assert "claude.ai.evil.com"[4] == 'd';
      }
    }
  }
}
