/** The two readings of a job's CPU and memory strings: what the job handler debits, and what the
    ledger is later credited from the pod that was built from the same strings. */
module Quantities {
  import opened Wrappers

  predicate IsDigit(c: char) {
    '0' <= c <= '9'
  }

  predicate Decimal(s: string) {
    s != "" && forall i :: 0 <= i < |s| ==> IsDigit(s[i])
  }

  function Digit(c: char): nat
    requires IsDigit(c)
  {
    c as int - '0' as int
  }

  /** The number a digit string of any length denotes. */
  function Value(s: string): nat
    requires forall i :: 0 <= i < |s| ==> IsDigit(s[i])
  {
    if s == "" then 0 else 10 * Value(s[..|s| - 1]) + Digit(s[|s| - 1])
  }

  /** How many digits a string starts with. */
  function Leading(s: string): (n: nat)
    ensures n <= |s| && (forall i :: 0 <= i < n ==> IsDigit(s[i])) && (n < |s| ==> !IsDigit(s[n]))
  {
    if s == "" || !IsDigit(s[0]) then 0 else 1 + Leading(s[1..])
  }

  /** Sscanf with "%d" into a variable that is 0: blanks, a sign, then as many digits as there are. */
  function Scan(s: string): int {
    if s != "" && s[0] == ' ' then Scan(s[1..])
    else if s != "" && s[0] == '-' then -(Value(s[1..][..Leading(s[1..])]) as int)
    else if s != "" && s[0] == '+' then Value(s[1..][..Leading(s[1..])])
    else Value(s[..Leading(s)])
  }

  predicate HasSuffix(s: string, suffix: string) {
    |suffix| <= |s| && s[|s| - |suffix|..] == suffix
  }

  function TrimSuffix(s: string, suffix: string): string {
    if HasSuffix(s, suffix) then s[..|s| - |suffix|] else s
  }

  // ---------------------------------------------------------------- debit

  /** The cores CreateJob debits. */
  function DebitCPU(s: string): int {
    var cores := if s == "" then 0 else Scan(s);
    if cores == 0 then 4 else cores
  }

  /** The memory in MB CreateJob debits. */
  function DebitMemory(s: string): int {
    var mb := if s == "" then 0 else Scan(TrimSuffix(TrimSuffix(s, "Gi"), "G")) * 1024;
    if mb == 0 then 16 * 1024 else mb
  }

  function DebitGPU(count: int): int {
    if count <= 0 then 1 else count
  }

  // ---------------------------------------------------------------- the pod, and the credit

  /** The CPU request of the pod. */
  function PodCPU(s: string): string {
    if s == "" then "2" else s
  }

  /** The memory request of the pod. */
  function PodMemory(s: string): string {
    if s == "" then "8Gi"
    else if !HasSuffix(s, "Gi") && !HasSuffix(s, "Mi") then s + "Gi"
    else s
  }

  /** Sprintf with "%d" of a number that is not negative. */
  function Shown(n: nat): string {
    var last := [('0' as int + n % 10) as char];
    if n < 10 then last else Shown(n / 10) + last
  }

  /** The GPU request of the pod. */
  function PodGPU(count: int): string {
    Shown(if count <= 0 then 1 else count)
  }

  const KI: int := 1024
  const MI: int := 1024 * KI
  const GI: int := 1024 * MI

  /** The Kubernetes quantities these requests can be: a decimal number, bare or in Mi, Gi or G.
      The empty string, and a number with any other ending, is not one; MustParse panics on it. */
  function ParseQuantity(s: string): Option<int> {
    var digits := s[..Leading(s)];
    var suffix := s[Leading(s)..];
    if digits == "" then None
    else if suffix == "" then Some(Value(digits))
    else if suffix == "Gi" then Some(Value(digits) * GI)
    else if suffix == "Mi" then Some(Value(digits) * MI)
    else if suffix == "G" then Some(Value(digits) * 1_000_000_000)
    else None
  }

  /** The cores read back from the pod, None when building the pod panics. */
  function CreditCPU(s: string): Option<int> {
    ParseQuantity(PodCPU(s))
  }

  /** The memory in MB read back from the pod: bytes divided by 1024 * 1024. */
  function CreditMemory(s: string): Option<int> {
    match ParseQuantity(PodMemory(s))
    case None => None
    case Some(bytes) => Some(bytes / MI)
  }

  function CreditGPU(count: int): Option<int> {
    ParseQuantity(PodGPU(count))
  }

  // ---------------------------------------------------------------- meaning

  lemma {:induction false} LeadingOf(digits: string, rest: string)
    requires forall i :: 0 <= i < |digits| ==> IsDigit(digits[i])
    requires rest == "" || !IsDigit(rest[0])
    ensures Leading(digits + rest) == |digits|
    ensures (digits + rest)[..|digits|] == digits && (digits + rest)[|digits|..] == rest
    decreases |digits|
  {
  }

  lemma ScanDecimal(digits: string, rest: string)
    requires Decimal(digits) && (rest == "" || !IsDigit(rest[0]))
    ensures Scan(digits + rest) == Value(digits)
  {
    LeadingOf(digits, rest);
    assert IsDigit((digits + rest)[0]);
  }

  lemma ScanNegative(digits: string)
    requires Decimal(digits)
    ensures Scan("-" + digits) == -(Value(digits) as int)
  {
    LeadingOf(digits, "");
    assert ("-" + digits)[1..] == digits && digits + "" == digits;
  }

  /** CPU: for an absent or plain decimal request of any length, the credit is the debit exactly when the
      request is given and not zero; the defaults of the two sides differ. */
  lemma CPUDebitEqualsCredit(s: string)
    requires s == "" || Decimal(s)
    ensures CreditCPU(s) == Some(DebitCPU(s)) <==> s != "" && Value(s) != 0
  {
    if s == "" {
      LeadingOf("2", "");
      assert Value("2"[..0]) == 0 && "2"[..1] == "2";
    } else {
      ScanDecimal(s, "");
      LeadingOf(s, "");
      assert s + "" == s;
    }
  }

  /** The forms of a memory request. */
  predicate MemoryForm(s: string, digits: string, suffix: string) {
    Decimal(digits) && s == digits + suffix && suffix in {"", "Gi", "Mi", "G"}
  }

  lemma SuffixByChars(s: string)
    ensures HasSuffix(s, "Gi") <==> 2 <= |s| && s[|s| - 2] == 'G' && s[|s| - 1] == 'i'
    ensures HasSuffix(s, "Mi") <==> 2 <= |s| && s[|s| - 2] == 'M' && s[|s| - 1] == 'i'
    ensures HasSuffix(s, "G") <==> 1 <= |s| && s[|s| - 1] == 'G'
  {
  }

  /** What the suffix tests and trims make of a memory request. */
  lemma Suffixes(digits: string, suffix: string)
    requires Decimal(digits) && suffix in {"", "Gi", "Mi", "G"}
    ensures var s := digits + suffix;
            && HasSuffix(s, "Gi") == (suffix == "Gi")
            && HasSuffix(s, "Mi") == (suffix == "Mi")
            && TrimSuffix(TrimSuffix(s, "Gi"), "G") == (if suffix == "Mi" then s else digits)
  {
    hide HasSuffix;
    var s := digits + suffix;
    var last := digits[|digits| - 1];
    assert IsDigit(last);
    SuffixByChars(s);
    SuffixByChars(digits);
    assert s[|digits| - 1] == last;
    assert s[..|digits|] == digits;
    match suffix {
      case "" => assert s[|s| - 1] == last;
      case "Gi" => assert s[|s| - 2] == 'G' && s[|s| - 1] == 'i';
      case "Mi" => assert s[|s| - 2] == 'M' && s[|s| - 1] == 'i';
      case _ => assert s[|s| - 1] == 'G';
    }
  }

  lemma MiBOfGi(n: nat)
    ensures n * GI / MI == n * 1024
    ensures n * MI / MI == n
  {
  }

  lemma MemoryDebit(digits: string, suffix: string)
    requires Decimal(digits) && suffix in {"", "Gi", "Mi", "G"}
    ensures DebitMemory(digits + suffix) == if Value(digits) == 0 then 16 * 1024 else Value(digits) * 1024
  {
    Suffixes(digits, suffix);
    ScanDecimal(digits, "Mi");
    ScanDecimal(digits, "");
    assert digits + "" == digits;
  }

  lemma MemoryCredit(digits: string, suffix: string)
    requires Decimal(digits) && suffix in {"", "Gi", "Mi", "G"}
    ensures CreditMemory(digits + suffix)
         == if suffix == "G" then None else if suffix == "Mi" then Some(Value(digits)) else Some(Value(digits) * 1024)
  {
    Suffixes(digits, suffix);
    MiBOfGi(Value(digits));
    match suffix {
      case "" =>
        assert digits + "" == digits;
        LeadingOf(digits, "Gi");
      case "Gi" => LeadingOf(digits, "Gi");
      case "Mi" => LeadingOf(digits, "Mi");
      case _ =>
        LeadingOf(digits, "GGi");
        assert digits + "G" + "Gi" == digits + "GGi";
        assert |"GGi"| == 3;
    }
  }

  /** Memory: for an absent request or a decimal one, bare or in Gi, Mi or G, the credit is the debit exactly
      when the request is bare or in Gi, and not zero. A request in Mi is debited as if it were in Gi, and
      one in G does not survive the suffix the pod builder adds. */
  lemma MemoryDebitEqualsCredit(s: string, digits: string, suffix: string)
    requires s == "" || MemoryForm(s, digits, suffix)
    ensures CreditMemory(s) == Some(DebitMemory(s)) <==> s != "" && suffix in {"", "Gi"} && Value(digits) != 0
  {
    if s == "" {
      LeadingOf("8", "Gi");
      assert "8" + "Gi" == "8Gi";
      assert "8"[..0] == "" && Value("8") == 8;
      MiBOfGi(8);
    } else {
      MemoryDebit(digits, suffix);
      MemoryCredit(digits, suffix);
    }
  }

  lemma {:induction false} ShownValue(n: nat)
    ensures Decimal(Shown(n)) && Value(Shown(n)) == n
  {
    if n >= 10 {
      ShownValue(n / 10);
    }
    var s := Shown(n);
    var last := s[|s| - 1];
    assert IsDigit(last) && Digit(last) == n % 10;
    assert s[..|s| - 1] == if n < 10 then "" else Shown(n / 10);
  }

  /** GPUs: what is printed into the pod and parsed back from it is what was debited, for every count; a missing
      count is one on both sides. */
  lemma GPUDebitEqualsCredit(count: int)
    ensures CreditGPU(count) == Some(DebitGPU(count)) && 1 <= DebitGPU(count)
  {
    var s := PodGPU(count);
    ShownValue(DebitGPU(count));
    LeadingOf(s, "");
    assert s + "" == s;
  }

  /** The defaults of the two sides: 4 cores and 16 GB are debited for a request that names none, 2 cores and 8 GB are
      credited. */
  lemma Defaults()
    ensures DebitCPU("") == 4 && DebitMemory("") == 16 * 1024
    ensures CreditCPU("") == Some(2) && CreditMemory("") == Some(8 * 1024)
  {
    LeadingOf("2", "");
    assert Value("2"[..0]) == 0 && "2"[..1] == "2";
    LeadingOf("8", "Gi");
    assert "8" + "Gi" == "8Gi";
    assert "8"[..0] == "" && Value("8") == 8;
    MiBOfGi(8);
  }

  /** A decimal request is debited as the number it denotes, in cores; and in GB whatever its suffix. Zero means the
      default. */
  lemma DebitOfDecimal(digits: string, suffix: string)
    requires Decimal(digits) && suffix in {"", "Gi", "Mi", "G"}
    ensures DebitCPU(digits) == if Value(digits) == 0 then 4 else Value(digits)
    ensures DebitMemory(digits + suffix) == if Value(digits) == 0 then 16 * 1024 else Value(digits) * 1024
  {
    ScanDecimal(digits, "");
    assert digits + "" == digits;
    MemoryDebit(digits, suffix);
    hide DebitMemory;
  }

  /** A blank or a sign before a decimal request is read over, and turned into the sign of the amount. A quantity, by
      contrast, must begin with a digit. */
  lemma SignsAreRead(digits: string)
    requires Decimal(digits)
    ensures Scan(" " + digits) == Scan("+" + digits) == Value(digits)
    ensures Scan("-" + digits) == -(Value(digits) as int)
    ensures Scan("") == 0 && ParseQuantity("") == None && ParseQuantity("-" + digits) == None
  {
    ScanNegative(digits);
    ScanDecimal(digits, "");
    LeadingOf(digits, "");
    assert digits + "" == digits;
    assert (" " + digits)[1..] == digits && ("+" + digits)[1..] == digits;
    LeadingOf("", "-" + digits);
    assert "" + ("-" + digits) == "-" + digits;
    hide Value;
  }
}
