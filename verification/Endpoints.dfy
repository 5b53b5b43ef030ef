/**
The admission webhook for the control plane endpoint: defaulting, validation, and the
hostname recogniser checked against the grammar of RFC 952 as amended by section 2.1 of
RFC 1123, with labels of at most 63 characters (section 2.3.4 of RFC 1035) and names of at
most 253. A `char` stands for a byte.
*/
module Endpoints {
  import opened Sequences

  // ----- the recogniser

  predicate LetDig(c: char) {
    'a' <= c <= 'z' || 'A' <= c <= 'Z' || '0' <= c <= '9'
  }

  predicate IsValidHostnameLabel(l: string) {
    && l != "" && |l| <= 63
    && forall i | 0 <= i < |l| :: LetDig(l[i]) || (l[i] == '-' && i != 0 && i != |l| - 1)
  }

  /** The pieces between the dots. */
  function Split(s: string): (labels: seq<string>)
    ensures labels != []
    decreases |s|
  {
    var k := IndexFrom(s, '.', 0);
    if k == |s| then [s] else [s[..k]] + Split(s[k + 1..])
  }

  predicate ValidLabels(labels: seq<string>) {
    forall i | 0 <= i < |labels| :: IsValidHostnameLabel(labels[i])
  }

  predicate HasDoubleDot(s: string) {
    exists i | 0 <= i < |s| - 1 :: s[i] == '.' && s[i + 1] == '.'
  }

  predicate IsValidHostname(s: string) {
    s != "" && |s| <= 253 && !HasDoubleDot(s) && ValidLabels(Split(s))
  }

  // ----- the grammar

  predicate LdhStr(s: string) {
    |s| >= 1 && (LetDig(s[0]) || s[0] == '-') && (|s| == 1 || LdhStr(s[1..]))
  }

  predicate Label(s: string) {
    && 1 <= |s| <= 63
    && LetDig(s[0])
    && (|s| == 1 || (LetDig(s[|s| - 1]) && (|s| == 2 || LdhStr(s[1..|s| - 1]))))
  }

  ghost predicate Hostname(s: string)
    decreases |s|
  {
    Label(s) || exists k | 0 <= k < |s| :: s[k] == '.' && Label(s[..k]) && Hostname(s[k + 1..])
  }

  // ----- they agree

  lemma {:induction false} LdhStrMeaning(s: string)
    ensures LdhStr(s) <==> |s| >= 1 && forall i | 0 <= i < |s| :: LetDig(s[i]) || s[i] == '-'
  {
    if |s| <= 1 {
    } else {
      LdhStrMeaning(s[1..]);
      assert forall i | 1 <= i < |s| :: s[i] == s[1..][i - 1];
    }
  }

  lemma LabelAgrees(s: string)
    ensures IsValidHostnameLabel(s) <==> Label(s)
  {
    if 2 < |s| <= 63 {
      var mid := s[1..|s| - 1];
      LdhStrMeaning(mid);
      assert forall i | 1 <= i < |s| - 1 :: s[i] == mid[i - 1];
    }
  }

  lemma DotsSplitLabels(s: string, k: nat)
    requires k < |s| && s[k] == '.' && Label(s[..k])
    ensures k == IndexFrom(s, '.', 0)
  {
    LabelAgrees(s[..k]);
    assert forall i | 0 <= i < k :: s[i] == s[..k][i] && s[i] != '.';
  }

  lemma LabelHasNoDot(s: string)
    requires Label(s)
    ensures IndexFrom(s, '.', 0) == |s|
  {
    LabelAgrees(s);
  }

  /** Checking every piece between dots is recognising the grammar. */
  lemma {:induction false} SplitAgrees(s: string)
    ensures ValidLabels(Split(s)) <==> Hostname(s)
    decreases |s|
  {
    var k := IndexFrom(s, '.', 0);
    if k == |s| {
      LabelAgrees(s);
      assert Split(s) == [s] && Split(s)[0] == s;
    } else {
      var head, tail := s[..k], s[k + 1..];
      SplitAgrees(tail);
      LabelAgrees(head);
      assert Split(s) == [head] + Split(tail);
      assert ValidLabels(Split(s)) <==> IsValidHostnameLabel(head) && ValidLabels(Split(tail)) by {
        assert Split(s)[0] == head && Split(s)[1..] == Split(tail);
      }
      if Label(s) {
        LabelHasNoDot(s);
        assert false;
      }
      forall j | 0 <= j < |s| && s[j] == '.' && Label(s[..j]) ensures j == k {
        DotsSplitLabels(s, j);
      }
    }
  }

  lemma SecondDot(s: string, k: nat)
    requires k == IndexFrom(s, '.', 0) && k < |s| && HasDoubleDot(s)
    ensures (k + 1 < |s| && s[k + 1] == '.') || HasDoubleDot(s[k + 1..])
  {
  }

  /** The search for two dots in a row never decides anything: such a name has an empty piece. */
  lemma {:induction false} DoubleDotRedundant(s: string)
    requires ValidLabels(Split(s))
    ensures !HasDoubleDot(s)
    decreases |s|
  {
    var k := IndexFrom(s, '.', 0);
    if k == |s| {
    } else {
      var tail := s[k + 1..];
      assert Split(s)[1..] == Split(tail);
      assert ValidLabels(Split(tail)) by {
        assert forall i | 0 <= i < |Split(tail)| :: Split(tail)[i] == Split(s)[i + 1];
      }
      DoubleDotRedundant(tail);
      if HasDoubleDot(s) {
        SecondDot(s, k);
        assert IndexFrom(tail, '.', 0) == 0;
        assert Split(tail)[0] == "";
        assert false;
      }
    }
  }

  /** The recogniser accepts exactly the names of the grammar of at most 253 characters. */
  lemma HostnameAgrees(s: string)
    ensures IsValidHostname(s) <==> Hostname(s) && |s| <= 253
  {
    SplitAgrees(s);
    if ValidLabels(Split(s)) {
      DoubleDotRedundant(s);
    }
  }

  // ----- defaulting and validation

  type Int32 = x: int | -0x8000_0000 <= x < 0x8000_0000

  datatype FieldError = HostRequired | HostInvalid | PortInvalid | PortRequired

  /** Accepts the textual IP addresses; stands for the library's parser. */
  type IPTest = string -> bool

  method ValidateControlPlaneEndpoint(isIP: IPTest, host: string, port: Int32) returns (errs: seq<FieldError>)
    ensures HostRequired in errs <==> host == ""
    ensures HostInvalid in errs <==> host != "" && !isIP(host) && !(Hostname(host) && |host| <= 253)
    ensures PortRequired in errs <==> port == 0
    ensures PortInvalid in errs <==> port != 0 && !(1 <= port <= 65535)
    ensures |errs| <= 2
  {
    HostnameAgrees(host);
    errs := [];
    if host == "" {
      errs := errs + [HostRequired];
    } else if !isIP(host) && !IsValidHostname(host) {
      errs := errs + [HostInvalid];
    }
    if port != 0 {
      if port < 1 || port > 65535 {
        errs := errs + [PortInvalid];
      }
    } else {
      errs := errs + [PortRequired];
    }
  }

  class Cluster {
    var host: string
    var port: Int32

    constructor (host: string, port: Int32)
      ensures this.host == host && this.port == port
    {
      this.host, this.port := host, port;
    }

    method Default()
      modifies `port
      ensures port == if host != "" && old(port) == 0 then 6443 else old(port)
    {
      if host != "" && port == 0 {
        port := 6443;
      }
    }

    method Validate(isIP: IPTest) returns (errs: seq<FieldError>)
      ensures errs == [] <==>
              || (host == "" && port == 0)
              || (host != "" && (isIP(host) || (Hostname(host) && |host| <= 253)) && 1 <= port <= 65535)
    {
      errs := [];
      if host != "" || port != 0 {
        var more := ValidateControlPlaneEndpoint(isIP, host, port);
        errs := errs + more;
        if more != [] {
          var e := more[0];
          assert e in more && (e.HostRequired? || e.HostInvalid? || e.PortRequired? || e.PortInvalid?);
        }
      }
    }
  }

  /** An endpoint is admitted, after defaulting, exactly when it was wholly unset or named a
      host with a port in range or none; it is then unset or complete. */
  method Admit(isIP: IPTest, host: string, port: Int32) returns (admitted: bool, c: Cluster)
    ensures admitted <==>
            || (host == "" && port == 0)
            || (host != "" && (isIP(host) || (Hostname(host) && |host| <= 253)) && 0 <= port <= 65535)
    ensures c.host == host
    ensures admitted && host == "" ==> c.port == 0
    ensures admitted && host != "" ==> 1 <= c.port <= 65535 && (port != 0 ==> c.port == port)
  {
    c := new Cluster(host, port);
    c.Default();
    var errs := c.Validate(isIP);
    admitted := errs == [];
  }
}
