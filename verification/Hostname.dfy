/** Who may create the cluster: peer derivation and the ordinal tiebreak. */
module Hostname {
  import opened Types

  predicate HasSuffix(s: string, suffix: string) {
    |suffix| <= |s| && s[|s| - |suffix|..] == suffix
  }

  function TrimSuffix(s: string, suffix: string): string {
    if HasSuffix(s, suffix) then s[..|s| - |suffix|] else s
  }

  /** derivePeerHost: flip a trailing ordinal. */
  function DerivePeerHost(hostname: string): Option<string> {
    if HasSuffix(hostname, "-0") then Some(TrimSuffix(hostname, "-0") + "-1")
    else if HasSuffix(hostname, "-1") then Some(TrimSuffix(hostname, "-1") + "-0")
    else None
  }

  /** runBootstrap's isOrdinalZero. */
  predicate OrdinalZero(peerHost: string, hostname: Option<string>) {
    peerHost == "" || hostname.None? || !HasSuffix(hostname.value, "-1")
  }

  lemma DerivationIsAnInvolution(hostname: string)
    ensures DerivePeerHost(hostname).Some? <==> HasSuffix(hostname, "-0") || HasSuffix(hostname, "-1")
    ensures DerivePeerHost(hostname).Some? ==>
      var peer := DerivePeerHost(hostname).value;
      peer != hostname && DerivePeerHost(peer) == Some(hostname)
  {
    if HasSuffix(hostname, "-0") {
      var stem := TrimSuffix(hostname, "-0");
      assert (stem + "-1")[|stem|..] == "-1";
      assert (stem + "-1")[|stem|..] != "-0";
      assert TrimSuffix(stem + "-1", "-1") == stem;
      assert stem + "-0" == hostname;
    } else if HasSuffix(hostname, "-1") {
      var stem := TrimSuffix(hostname, "-1");
      assert (stem + "-0")[|stem|..] == "-0";
      assert TrimSuffix(stem + "-0", "-0") == stem;
      assert stem + "-1" == hostname;
    }
  }

  /** The derived name differs in the ordinal and nothing else. */
  lemma DerivationFlipsTheOrdinal(stem: string)
    ensures DerivePeerHost(stem + "-0") == Some(stem + "-1") && DerivePeerHost(stem + "-1") == Some(stem + "-0")
  {
    var a, b := stem + "-0", stem + "-1";
    assert a[|stem|..] == "-0" && b[|stem|..] == "-1" && a[..|stem|] == stem && b[..|stem|] == stem;
    assert b[|stem|..] != "-0";
  }

  /** Of a derived pair exactly one node is the one that may create a cluster. */
  lemma ExactlyOneOrdinalZero(hostname: string)
    requires DerivePeerHost(hostname).Some?
    ensures var peer := DerivePeerHost(hostname).value;
      OrdinalZero(peer, Some(hostname)) <==> !OrdinalZero(hostname, Some(peer))
  {
    DerivationIsAnInvolution(hostname);
    var peer := DerivePeerHost(hostname).value;
    assert hostname != "" && peer != "";
    if HasSuffix(hostname, "-0") {
      assert hostname[|hostname| - 2..] != "-1";
      assert peer[|peer| - 2..] == "-1";
    } else {
      assert peer[|peer| - 2..] == "-0";
      assert peer[|peer| - 2..] != "-1";
    }
  }
}
