/** What the manager and the handler share about VPN clients. */
module Vpn {
  import opened Text

  type Cn = string

  /** A connected client as the management interface lists it.  connectedAt: Unix seconds; None is Go's zero time. */
  datatype VPNClient = VPNClient(
    commonName: Cn, realAddr: string, virtualIP: string, connectedAt: Option<int>,
    bytesRecv: int, bytesSent: int, hostname: string)

  /** The Common Names that may appear in file names and management commands. */
  predicate ValidCN(cn: Cn) {
    1 <= |cn| <= 64 && forall k :: 0 <= k < |cn| ==>
      IsDigit(cn[k]) || 'a' <= cn[k] <= 'z' || 'A' <= cn[k] <= 'Z' || cn[k] == '_' || cn[k] == '-'
  }

  const LOWER := "abcdefghijklmnopqrstuvwxyz"
  const UPPER := "ABCDEFGHIJKLMNOPQRSTUVWXYZ"
  const DIGITS := "0123456789"

  lemma LowerIff(c: char)
    ensures c in LOWER <==> 'a' <= c <= 'z'
  {
    if 'a' <= c <= 'z' {
      assert LOWER[c as int - 'a' as int] == c;
    }
  }

  lemma UpperIff(c: char)
    ensures c in UPPER <==> 'A' <= c <= 'Z'
  {
    if 'A' <= c <= 'Z' {
      assert UPPER[c as int - 'A' as int] == c;
    }
  }

  lemma DigitIff(c: char)
    ensures c in DIGITS <==> IsDigit(c)
  {
    if IsDigit(c) {
      assert DIGITS[c as int - '0' as int] == c;
    }
  }

  /** A name is accepted if and only if it has one to 64 characters, all of them letters, digits, underscores or
      hyphens.  So it holds neither a slash nor a dot, and no blank or line end. */
  lemma ValidCNIff(cn: Cn)
    ensures ValidCN(cn) <==> 0 < |cn| <= 64 && forall c :: c in cn ==> c in LOWER || c in UPPER || c in DIGITS || c in "_-"
    ensures ValidCN(cn) ==> forall c :: c in "/.\\ \n\r\t" ==> c !in cn
  {
    forall c
      ensures (c in LOWER <==> 'a' <= c <= 'z') && (c in UPPER <==> 'A' <= c <= 'Z') && (c in DIGITS <==> IsDigit(c))
    {
      LowerIff(c);
      UpperIff(c);
      DigitIff(c);
    }
  }
}
