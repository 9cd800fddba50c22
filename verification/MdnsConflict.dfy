/**
 Name conflicts: who wins a tie between two responders (section 8.2 of RFC 6762), and the new name
 the loser takes.
 */
module MdnsConflict {
  import opened Common
  import opened MdnsName
  import opened MdnsCompress
  import opened MdnsRecord

  // ---- Comparing bytes ----

  /** The sign of the first difference, zero if there is none. */
  function Compare(a: seq<byte>, b: seq<byte>): (r: int)
    requires |a| == |b|
    ensures -1 <= r <= 1
    decreases |a|
  {
    if a == [] then 0
    else if a[0] < b[0] then -1
    else if a[0] > b[0] then 1
    else Compare(a[1..], b[1..])
  }

  /** Longer data wins; data of the same length is compared byte by byte. 1 means that `theirs` wins. */
  function Verdict(ours: seq<byte>, theirs: seq<byte>): int {
    if |theirs| > |ours| then 1
    else if |theirs| < |ours| then -1
    else -Compare(ours, theirs)
  }

  lemma {:induction false} CompareOrder(a: seq<byte>, b: seq<byte>)
    requires |a| == |b|
    ensures Compare(a, b) == -Compare(b, a)
    ensures Compare(a, b) == 0 <==> a == b
    decreases |a|
  {
    if a != [] && a[0] == b[0] {
      CompareOrder(a[1..], b[1..]);
      assert a == [a[0]] + a[1..] && b == [b[0]] + b[1..];
    }
  }

  lemma {:induction false} CompareChain(a: seq<byte>, b: seq<byte>, c: seq<byte>)
    requires |a| == |b| == |c| && Compare(a, b) >= 0 && Compare(b, c) >= 0
    ensures Compare(a, c) >= 0
    ensures Compare(a, c) == 0 ==> Compare(a, b) == 0 && Compare(b, c) == 0
    decreases |a|
  {
    if a != [] && a[0] == b[0] && b[0] == c[0] {
      CompareChain(a[1..], b[1..], c[1..]);
    }
  }

  lemma VerdictOrder(a: seq<byte>, b: seq<byte>)
    ensures Verdict(a, b) == -Verdict(b, a)
    ensures Verdict(a, b) == 0 <==> a == b
  {
    if |a| == |b| {
      CompareOrder(a, b);
    }
  }

  lemma VerdictChain(a: seq<byte>, b: seq<byte>, c: seq<byte>)
    requires Verdict(a, b) == 1 && Verdict(b, c) == 1
    ensures Verdict(a, c) == 1
  {
    if |a| == |b| == |c| {
      CompareOrder(a, b);
      CompareOrder(b, c);
      CompareOrder(a, c);
      CompareChain(c, b, a);
    }
  }

  /** At the first position where the byte strings differ, the byte of `a` is the greater one. */
  ghost predicate GreaterFirst(a: seq<byte>, b: seq<byte>) {
    exists k :: 0 <= k < |a| && k < |b| && a[..k] == b[..k] && a[k] > b[k]
  }

  /** What section 8.2 of RFC 6762 calls lexicographically later, with longer data later than any shorter. */
  ghost predicate Beats(a: seq<byte>, b: seq<byte>) {
    |a| > |b| || (|a| == |b| && GreaterFirst(a, b))
  }

  lemma {:induction false} CompareFinds(a: seq<byte>, b: seq<byte>) returns (k: nat)
    requires |a| == |b| && a != b
    ensures k < |a| && a[..k] == b[..k] && a[k] != b[k]
    ensures Compare(a, b) == if a[k] < b[k] then -1 else 1
    decreases |a|
  {
    if a[0] != b[0] {
      k := 0;
    } else {
      assert a == [a[0]] + a[1..] && b == [b[0]] + b[1..];
      k := CompareFinds(a[1..], b[1..]);
      assert a[..k + 1] == [a[0]] + a[1..][..k] && b[..k + 1] == [b[0]] + b[1..][..k];
      k := k + 1;
    }
  }

  /** Two strings cannot each be greater where they first differ. */
  lemma GreaterOnce(a: seq<byte>, b: seq<byte>)
    ensures !(GreaterFirst(a, b) && GreaterFirst(b, a))
  {
    forall i, j | 0 <= i < |a| && i < |b| && a[..i] == b[..i] && a[i] > b[i] && 0 <= j < |a| && j < |b| && b[..j] == a[..j]
      ensures b[j] <= a[j]
    {
      if j < i {
        SamePrefix(a, b, i, j);
      }
      if i < j {
        SamePrefix(a, b, j, i);
      }
    }
  }

  lemma SamePrefix(a: seq<byte>, b: seq<byte>, k: nat, i: nat)
    requires i < k <= |a| && k <= |b| && a[..k] == b[..k]
    ensures a[i] == b[i]
  {
    assert a[..k][i] == b[..k][i];
  }

  /** Who wins a tie: the longer data, and of data of the same length the one with the greater byte where they first differ. */
  lemma VerdictMeans(ours: seq<byte>, theirs: seq<byte>)
    ensures Verdict(ours, theirs) == 1 <==> Beats(theirs, ours)
    ensures Verdict(ours, theirs) == -1 <==> Beats(ours, theirs)
    ensures Verdict(ours, theirs) == 0 <==> ours == theirs
  {
    VerdictOrder(ours, theirs);
    if |ours| == |theirs| {
      GreaterOnce(ours, theirs);
      if ours != theirs {
        var k := CompareFinds(ours, theirs);
        assert ours[k] > theirs[k] ==> GreaterFirst(ours, theirs);
        assert theirs[k] > ours[k] ==> GreaterFirst(theirs, ours);
      } else {
        SelfNotGreater(ours);
      }
    }
  }

  lemma SelfNotGreater(a: seq<byte>)
    ensures !GreaterFirst(a, a)
  {
    GreaterOnce(a, a);
  }

  method MemoryCompare(a: seq<byte>, b: seq<byte>) returns (r: int)
    requires |a| == |b|
    ensures r == Compare(a, b)
  {
    for i := 0 to |a|
      invariant Compare(a, b) == Compare(a[i..], b[i..])
    {
      if a[i] != b[i] {
        return if a[i] < b[i] then -1 else 1;
      }
      assert a[i..][1..] == a[i + 1..] && b[i..][1..] == b[i + 1..];
    }
    return 0;
  }

  method Judge(ours: seq<byte>, theirs: seq<byte>) returns (r: int)
    requires |ours| == |theirs|
    ensures r == Verdict(ours, theirs)
  {
    var c := MemoryCompare(ours, theirs);
    if c > 0 {
      return -1;
    } else if c < 0 {
      return 1;
    }
    return 0;
  }

  // ---- Service records ----

  datatype Srv = Srv(priority: nat, weight: nat, port: nat, host: seq<byte>)

  predicate ValidSrv(s: Srv) {
    s.priority < 0x10000 && s.weight < 0x10000 && s.port < 0x10000 && |s.host| < 256
  }

  /** The data of a service record, without compression. */
  function SrvBytes(s: Srv, domain: seq<byte>): (r: seq<byte>)
    requires ValidSrv(s) && |domain| < 256
    ensures |r| == 9 + |s.host| + |domain|
  {
    U16(s.priority) + U16(s.weight) + U16(s.port) + [|s.host| as byte] + s.host + [|domain| as byte] + domain + [0]
  }

  /** A responder without a host name does not judge. */
  function SrvVerdict(ours: Srv, theirs: Srv, domain: seq<byte>): int
    requires ValidSrv(ours) && ValidSrv(theirs) && |domain| < 256
  {
    if ours.host == [] then 0 else Verdict(SrvBytes(ours, LOCAL), SrvBytes(theirs, domain))
  }

  /** How a responder with host name `hostname` judges a service record it has received for its own service. */
  method CheckSrvCollision(hostname: seq<byte>, priority: nat, weight: nat, port: nat, their: Srv, domain: seq<byte>)
    returns (r: int)
    requires |hostname| < 256 && |their.host| < 256 && |domain| < 256
    requires priority < 0x10000 && weight < 0x10000 && port < 0x10000
    requires their.priority < 0x10000 && their.weight < 0x10000 && their.port < 0x10000
    ensures r == SrvVerdict(Srv(priority, weight, port, hostname), their, domain)
  {
    if hostname == [] {
      return 0;
    }
    var ourLen := 14 + |hostname|;
    var theirLen := 9 + |their.host| + |domain|;
    if theirLen > ourLen {
      return 1;
    } else if theirLen < ourLen {
      return -1;
    }
    var ours := U16(priority) + U16(weight) + U16(port);
    ours := ours + [|hostname| as byte] + hostname;
    ours := ours + [5] + LOCAL + [0];
    var theirs := U16(their.priority) + U16(their.weight) + U16(their.port);
    theirs := theirs + [|their.host| as byte] + their.host;
    theirs := theirs + [|domain| as byte] + domain + [0];
    r := Judge(ours, theirs);
  }

  /** Equal bytes come from equal records. */
  lemma SrvBytesInjective(a: Srv, b: Srv)
    requires ValidSrv(a) && ValidSrv(b) && SrvBytes(a, LOCAL) == SrvBytes(b, LOCAL)
    ensures a == b
  {
    var x, y := SrvBytes(a, LOCAL), SrvBytes(b, LOCAL);
    assert |a.host| == |b.host|;
    assert a.host == x[7..7 + |a.host|] && b.host == y[7..7 + |b.host|];
    assert x[..2] == U16(a.priority) && x[2..4] == U16(a.weight) && x[4..6] == U16(a.port);
    assert y[..2] == U16(b.priority) && y[2..4] == U16(b.weight) && y[4..6] == U16(b.port);
    U16Injective(a.priority, b.priority);
    U16Injective(a.weight, b.weight);
    U16Injective(a.port, b.port);
  }

  lemma U16Injective(a: nat, b: nat)
    requires a < 0x10000 && b < 0x10000 && U16(a) == U16(b)
    ensures a == b
  {
    assert U16(a)[0] == U16(b)[0] && U16(a)[1] == U16(b)[1];
  }

  /**
   Between responders in domain `local` the service check elects one winner: both sides give opposite
   verdicts, the verdicts chain, and neither wins only with identical records.
   */
  lemma SrvElectsOne(a: Srv, b: Srv, c: Srv)
    requires ValidSrv(a) && ValidSrv(b) && ValidSrv(c) && a.host != [] && b.host != [] && c.host != []
    ensures SrvVerdict(a, b, LOCAL) == -SrvVerdict(b, a, LOCAL)
    ensures SrvVerdict(a, b, LOCAL) == 0 <==> a == b
    ensures SrvVerdict(a, b, LOCAL) == 1 && SrvVerdict(b, c, LOCAL) == 1 ==> SrvVerdict(a, c, LOCAL) == 1
  {
    hide SrvBytes;
    VerdictOrder(SrvBytes(a, LOCAL), SrvBytes(b, LOCAL));
    if SrvVerdict(a, b, LOCAL) == 0 {
      SrvBytesInjective(a, b);
    }
    if SrvVerdict(a, b, LOCAL) == 1 && SrvVerdict(b, c, LOCAL) == 1 {
      VerdictChain(SrvBytes(a, LOCAL), SrvBytes(b, LOCAL), SrvBytes(c, LOCAL));
    }
  }

  /** Where the fields of a service record stand in its data, numbers highest byte first (RFC 2782). */
  lemma SrvLayout(s: Srv, domain: seq<byte>)
    requires ValidSrv(s) && |domain| < 256
    ensures var data := SrvBytes(s, domain);
            var h := |s.host|;
            && data[0] as nat * 256 + data[1] as nat == s.priority
            && data[2] as nat * 256 + data[3] as nat == s.weight
            && data[4] as nat * 256 + data[5] as nat == s.port
            && data[6] as nat == h && data[7..7 + h] == s.host
            && data[7 + h] as nat == |domain| && data[8 + h..8 + h + |domain|] == domain && data[8 + h + |domain|] == 0
  {
    var data := SrvBytes(s, domain);
    assert data == (U16(s.priority) + U16(s.weight) + U16(s.port) + [|s.host| as byte]) + s.host + [|domain| as byte] + domain + [0];
  }

  /**
   The service check answers 1 exactly when the data of the other record beats ours, -1 exactly when ours beats theirs,
   unless the responder has no host name.
   */
  lemma SrvWinner(ours: Srv, theirs: Srv, domain: seq<byte>)
    requires ValidSrv(ours) && ValidSrv(theirs) && |domain| < 256
    ensures SrvVerdict(ours, theirs, domain) == 1 <==> ours.host != [] && Beats(SrvBytes(theirs, domain), SrvBytes(ours, LOCAL))
    ensures SrvVerdict(ours, theirs, domain) == -1 <==> ours.host != [] && Beats(SrvBytes(ours, LOCAL), SrvBytes(theirs, domain))
  {
    hide SrvBytes, Verdict, Beats;
    VerdictMeans(SrvBytes(ours, LOCAL), SrvBytes(theirs, domain));
  }

  /** The three numbers of a service record as one. */
  function Rank(s: Srv): nat {
    (s.priority * 0x10000 + s.weight) * 0x10000 + s.port
  }

  lemma CompareU16(a: nat, b: nat, x: seq<byte>, y: seq<byte>)
    requires a < 0x10000 && b < 0x10000 && |x| == |y|
    ensures Compare(U16(a) + x, U16(b) + y) == if a < b then -1 else if a > b then 1 else Compare(x, y)
  {
    var s, t := U16(a) + x, U16(b) + y;
    assert s[1..] == [(a % 256) as byte] + x && t[1..] == [(b % 256) as byte] + y;
    assert s[1..][1..] == x && t[1..][1..] == y;
    assert a == a / 256 * 256 + a % 256 && b == b / 256 * 256 + b % 256;
  }

  /** Between responders on hosts of the same name the greater priority wins, then the greater weight, then the greater port. */
  lemma SrvRanked(ours: Srv, theirs: Srv)
    requires ValidSrv(ours) && ValidSrv(theirs) && ours.host == theirs.host != []
    ensures SrvVerdict(ours, theirs, LOCAL) == if Rank(theirs) > Rank(ours) then 1 else if Rank(theirs) < Rank(ours) then -1 else 0
  {
    hide U16, Compare;
    var rest := [|ours.host| as byte] + ours.host + [|LOCAL| as byte] + LOCAL + [0];
    assert SrvBytes(ours, LOCAL) == U16(ours.priority) + (U16(ours.weight) + (U16(ours.port) + rest));
    assert SrvBytes(theirs, LOCAL) == U16(theirs.priority) + (U16(theirs.weight) + (U16(theirs.port) + rest));
    CompareU16(ours.priority, theirs.priority, U16(ours.weight) + (U16(ours.port) + rest), U16(theirs.weight) + (U16(theirs.port) + rest));
    CompareU16(ours.weight, theirs.weight, U16(ours.port) + rest, U16(theirs.port) + rest);
    CompareU16(ours.port, theirs.port, rest, rest);
    CompareOrder(rest, rest);
  }

  // ---- Text records ----

  /** The entries have names and fit a packet. */
  predicate ValidTxt(entries: seq<TxtEntry>) {
    |EntriesBytes(entries)| < MAX_PACKET && forall i :: 0 <= i < |entries| ==> entries[i].key != []
  }

  lemma {:induction false} EntriesBytesAppend(a: seq<TxtEntry>, entry: TxtEntry)
    ensures EntriesBytes(a + [entry]) == EntriesBytes(a) + EntryBytes(entry)
    decreases |a|
  {
    hide EntryBytes;
    if a == [] {
      assert [entry][1..] == [] && a + [entry] == [entry];
      assert EntryBytes(entry) + [] == [] + EntryBytes(entry);
    } else {
      assert (a + [entry])[1..] == a[1..] + [entry];
      EntriesBytesAppend(a[1..], entry);
      Associative(EntryBytes(a[0]), EntriesBytes(a[1..]), EntryBytes(entry));
    }
  }

  lemma {:induction false} EntriesBytesPrefix(entries: seq<TxtEntry>, k: nat)
    requires k <= |entries|
    ensures |EntriesBytes(entries[..k])| <= |EntriesBytes(entries)|
    decreases |entries| - k
  {
    if k == |entries| {
      assert entries[..k] == entries;
    } else {
      assert entries[..k + 1] == entries[..k] + [entries[k]];
      EntriesBytesAppend(entries[..k], entries[k]);
      EntriesBytesPrefix(entries, k + 1);
    }
  }

  /** Data of one byte stands for no entries. */
  function TxtVerdict(ours: seq<TxtEntry>, theirs: seq<byte>): int {
    if |theirs| == 1 then (if ours == [] then 0 else -1)
    else if |theirs| > 1 && ours == [] then 1
    else Verdict(EntriesBytes(ours), theirs)
  }

  /** How a responder with these entries judges the data of a text record for its own service. */
  method CheckTxtCollision(entries: seq<TxtEntry>, data: seq<byte>) returns (r: int)
    requires ValidTxt(entries)
    ensures r == TxtVerdict(entries, data)
  {
    hide EntryBytes;
    var dataLen := 0;
    if |data| == 1 && entries != [] {
      return -1;
    } else if |data| > 1 && entries == [] {
      return 1;
    } else if |data| == 1 && entries == [] {
      return 0;
    }
    for i := 0 to |entries|
      invariant dataLen == |EntriesBytes(entries[..i])|
    {
      assert entries[..i + 1] == entries[..i] + [entries[i]];
      EntriesBytesAppend(entries[..i], entries[i]);
      dataLen := dataLen + 1 + |entries[i].key| + (if entries[i].value.Some? then |entries[i].value.value| + 1 else 0);
    }
    assert entries[..|entries|] == entries;
    if |data| > dataLen {
      return 1;
    } else if |data| < dataLen {
      return -1;
    }
    var ours := [];
    for i := 0 to |entries|
      invariant ours == EntriesBytes(entries[..i])
    {
      assert entries[..i + 1] == entries[..i] + [entries[i]];
      EntriesBytesAppend(entries[..i], entries[i]);
      EntriesBytesPrefix(entries, i + 1);
      if |ours| + |EntryText(entries[i])| + 1 < MAX_PACKET {
        ours := ours + EntryBytes(entries[i]);
      }
    }
    r := Judge(ours, data);
  }

  lemma TxtLength(entries: seq<TxtEntry>)
    requires ValidTxt(entries)
    ensures |TxtBytes(entries)| == 1 <==> entries == []
    ensures TxtBytes(entries) != []
  {
    if entries != [] {
      assert entries[0].key != [];
    }
  }

  /** Against what another responder writes, the text check is the order on the written bytes. */
  lemma TxtVerdictIs(ours: seq<TxtEntry>, theirs: seq<TxtEntry>)
    requires ValidTxt(ours) && ValidTxt(theirs)
    ensures TxtVerdict(ours, TxtBytes(theirs)) == Verdict(TxtBytes(ours), TxtBytes(theirs))
  {
    TxtLength(ours);
    TxtLength(theirs);
    VerdictOrder(TxtBytes(ours), TxtBytes(theirs));
  }

  /** The text check elects one winner, too; neither wins only with identical data. */
  lemma TxtElectsOne(a: seq<TxtEntry>, b: seq<TxtEntry>, c: seq<TxtEntry>)
    requires ValidTxt(a) && ValidTxt(b) && ValidTxt(c)
    ensures TxtVerdict(a, TxtBytes(b)) == -TxtVerdict(b, TxtBytes(a))
    ensures TxtVerdict(a, TxtBytes(b)) == 0 <==> TxtBytes(a) == TxtBytes(b)
    ensures TxtVerdict(a, TxtBytes(b)) == 1 && TxtVerdict(b, TxtBytes(c)) == 1 ==> TxtVerdict(a, TxtBytes(c)) == 1
  {
    hide TxtBytes, TxtVerdict, Verdict;
    TxtVerdictIs(a, b);
    TxtVerdictIs(b, a);
    TxtVerdictIs(b, c);
    TxtVerdictIs(a, c);
    VerdictOrder(TxtBytes(a), TxtBytes(b));
    if TxtVerdict(a, TxtBytes(b)) == 1 && TxtVerdict(b, TxtBytes(c)) == 1 {
      VerdictChain(TxtBytes(a), TxtBytes(b), TxtBytes(c));
    }
  }

  /**
   The text check answers 1 exactly when the data received beats what we write, -1 exactly when ours beats it,
   but for one byte, which stands for no entries whatever it is.
   */
  lemma TxtWinner(ours: seq<TxtEntry>, data: seq<byte>)
    requires ValidTxt(ours)
    ensures TxtVerdict(ours, data) == 1 <==> |data| != 1 && Beats(data, TxtBytes(ours))
    ensures TxtVerdict(ours, data) == -1 <==> ours != [] && Beats(TxtBytes(ours), data)
  {
    hide TxtBytes, Verdict, EntriesBytes, Beats;
    TxtLength(ours);
    TxtBytesAre(ours);
    BeatsByLength(data, TxtBytes(ours));
    BeatsByLength(TxtBytes(ours), data);
    VerdictMeans(TxtBytes(ours), data);
    VerdictMeans([], []);
  }

  lemma BeatsByLength(a: seq<byte>, b: seq<byte>)
    ensures |a| > |b| ==> Beats(a, b)
    ensures |a| < |b| ==> !Beats(a, b)
  {
  }

  lemma TxtBytesAre(entries: seq<TxtEntry>)
    ensures TxtBytes(entries) == if entries == [] then [0] else EntriesBytes(entries)
    ensures EntriesBytes([]) == []
  {
  }

  // ---- A new name ----

  const HYPHEN: byte := 45
  const INT_MAX := 0x7FFF_FFFF

  predicate IsSpace(b: byte) {
    9 <= b <= 13 || b == 32
  }

  /** The position of the last hyphen. */
  function LastHyphen(s: seq<byte>): (r: Option<nat>)
    ensures r.Some? ==> r.value < |s| && s[r.value] == HYPHEN
    decreases |s|
  {
    if s == [] then None
    else if s[|s| - 1] == HYPHEN then Some(|s| - 1)
    else LastHyphen(s[..|s| - 1])
  }

  /** The digits `s` starts with. */
  function LeadingDigits(s: seq<byte>): (r: seq<byte>)
    ensures r <= s && Digits(r)
    decreases |s|
  {
    if s == [] || !IsDigit(s[0]) then [] else [s[0]] + LeadingDigits(s[1..])
  }

  function SpaceCount(s: seq<byte>): (n: nat)
    ensures n <= |s|
    decreases |s|
  {
    if s == [] || !IsSpace(s[0]) then 0 else 1 + SpaceCount(s[1..])
  }

  function Digit(b: byte): nat
    requires IsDigit(b)
  {
    b as nat - 48
  }

  function Value(digits: seq<byte>): nat
    requires Digits(digits)
    decreases |digits|
  {
    if digits == [] then 0 else Value(digits[..|digits| - 1]) * 10 + Digit(digits[|digits| - 1])
  }

  /** The conversion of the C library, for text without a hyphen: the number, and whether it takes up the whole text. */
  function Strtol(s: seq<byte>): (nat, bool) {
    var from := SpaceCount(s);
    var signed := if from < |s| && s[from] == 43 then from + 1 else from;
    var digits := LeadingDigits(s[signed..]);
    if digits == [] then (0, s == [])
    else (if Value(digits) > INT_MAX then INT_MAX else Value(digits), signed + |digits| == |s|)
  }

  /** The number at the end of a name, if what follows the last hyphen is one. */
  function Suffix(name: seq<byte>): Option<nat> {
    match LastHyphen(name)
    case None => None
    case Some(p) => if Strtol(name[p + 1..]).1 then Some(Strtol(name[p + 1..]).0) else None
  }

  /** The name a responder takes when it has lost its own. */
  function Mangled(name: seq<byte>): seq<byte> {
    match Suffix(name)
    case None => name + [HYPHEN] + Decimal(2)
    case Some(k) => name[..LastHyphen(name).value] + [HYPHEN] + Decimal(k + 1)
  }

  lemma {:induction false} ValueOfDecimal(n: nat)
    ensures Value(Decimal(n)) == n
  {
    var d := Decimal(n);
    if n < 10 {
      assert d[..0] == [];
    } else {
      ValueOfDecimal(n / 10);
      assert d[..|d| - 1] == Decimal(n / 10);
    }
  }

  /** No spelling of a number is shorter than the decimal one, and its successor is at most one digit longer. */
  lemma {:induction false} DecimalShort(digits: seq<byte>)
    requires digits != [] && Digits(digits)
    ensures |Decimal(Value(digits))| <= |digits|
    decreases |digits|
  {
    var n := |digits| - 1;
    if n > 0 {
      DecimalShort(digits[..n]);
    } else {
      assert Value(digits[..0]) == 0;
    }
  }

  lemma {:induction false} DecimalNext(n: nat)
    ensures |Decimal(n)| <= |Decimal(n + 1)| <= |Decimal(n)| + 1
  {
    if n >= 10 {
      DecimalNext(n / 10);
    }
  }

  lemma {:induction false} AllLeading(s: seq<byte>)
    requires Digits(s)
    ensures LeadingDigits(s) == s
    decreases |s|
  {
    if s != [] {
      AllLeading(s[1..]);
    }
  }

  lemma StrtolDecimal(n: nat)
    requires n <= INT_MAX
    ensures Strtol(Decimal(n)) == (n, true)
  {
    var d := Decimal(n);
    assert IsDigit(d[0]);
    assert d[0..] == d;
    AllLeading(d);
    ValueOfDecimal(n);
  }

  lemma {:induction false} LastHyphenAt(s: seq<byte>, p: nat)
    requires p < |s| && s[p] == HYPHEN && HYPHEN !in s[p + 1..]
    ensures LastHyphen(s) == Some(p)
    decreases |s|
  {
    var n := |s| - 1;
    if p < n {
      assert s[n] == s[p + 1..][n - p - 1];
      assert forall i :: p + 1 <= i < n ==> s[i] == s[p + 1..][i - p - 1];
      LastHyphenAt(s[..n], p);
    }
  }

  /** A hyphen and a decimal number behind any text are read as that number. */
  lemma SuffixIs(base: seq<byte>, n: nat)
    requires n <= INT_MAX
    ensures LastHyphen(base + [HYPHEN] + Decimal(n)) == Some(|base|)
    ensures Suffix(base + [HYPHEN] + Decimal(n)) == Some(n)
  {
    var name := base + [HYPHEN] + Decimal(n);
    assert name[|base| + 1..] == Decimal(n);
    LastHyphenAt(name, |base|);
    StrtolDecimal(n);
  }

  /** Renaming increases the number at the end of the name; a name without one gets a 2. */
  lemma MangledSuffix(name: seq<byte>)
    requires Suffix(name).Some? ==> Suffix(name).value < INT_MAX
    ensures Suffix(Mangled(name)) == Some(if Suffix(name).Some? then Suffix(name).value + 1 else 2)
  {
    if Suffix(name).Some? {
      SuffixIs(name[..LastHyphen(name).value], Suffix(name).value + 1);
    } else {
      SuffixIs(name, 2);
    }
  }

  /** The space the new name is given, its terminator included. */
  function Allocated(name: seq<byte>): nat {
    |name| + if Suffix(name).Some? then 2 else 3
  }

  lemma StrtolShort(text: seq<byte>)
    requires Strtol(text).1 && Strtol(text).0 < INT_MAX
    ensures |Decimal(Strtol(text).0 + 1)| <= |text| + 1
  {
    var from := SpaceCount(text);
    var signed := if from < |text| && text[from] == 43 then from + 1 else from;
    var digits := LeadingDigits(text[signed..]);
    if digits != [] {
      DecimalShort(digits);
      DecimalNext(Strtol(text).0);
    }
  }

  /** The new name and its terminator fit the space allocated for them. */
  lemma MangledFits(name: seq<byte>)
    requires Suffix(name).Some? ==> Suffix(name).value < INT_MAX
    ensures |Mangled(name)| + 1 <= Allocated(name)
  {
    hide Strtol, Decimal;
    if Suffix(name).Some? {
      StrtolShort(name[LastHyphen(name).value + 1..]);
    } else {
      TwoIsShort();
    }
  }

  lemma TwoIsShort()
    ensures |Decimal(2)| == 1
  {
  }

  /** The name after `n` renamings. */
  function Renamed(name: seq<byte>, n: nat): seq<byte>
    decreases n
  {
    if n == 0 then name else Mangled(Renamed(name, n - 1))
  }

  /** Renaming again and again makes progress: the numbers at the end increase one by one. */
  lemma {:induction false} RenamedSuffix(name: seq<byte>, n: nat)
    requires n > 0
    requires (if Suffix(name).Some? then Suffix(name).value else 1) + n <= INT_MAX
    ensures Suffix(Renamed(name, n)) == Some((if Suffix(name).Some? then Suffix(name).value else 1) + n)
    decreases n
  {
    if n > 1 {
      RenamedSuffix(name, n - 1);
    }
    MangledSuffix(Renamed(name, n - 1));
  }

  /** No name comes up twice. */
  lemma RenamedDistinct(name: seq<byte>, m: nat, n: nat)
    requires m < n && (if Suffix(name).Some? then Suffix(name).value else 1) + n <= INT_MAX
    ensures Renamed(name, m) != Renamed(name, n)
  {
    RenamedSuffix(name, n);
    if m > 0 {
      RenamedSuffix(name, m);
    }
  }

  /** The new name, written into freshly allocated memory behind which nothing is touched. */
  method MangleName(name: seq<byte>) returns (r: array<byte>)
    requires 0 !in name && (Suffix(name).Some? ==> Suffix(name).value < INT_MAX)
    ensures fresh(r) && r.Length == Allocated(name)
    ensures |Mangled(name)| < r.Length && r[..|Mangled(name)|] == Mangled(name) && r[|Mangled(name)|] == 0
  {
    hide Strtol, Decimal, LastHyphen;
    MangledFits(name);
    var p := LastHyphen(name);
    var suffix := 2;
    if p.Some? {
      var (value, whole) := Strtol(name[p.value + 1..]);
      suffix := value;
      if !whole {
        suffix := 2;
        p := None;
      }
    }
    if p.None? {
      r := new byte[|name| + 3](_ => 0);
      Print(r, 0, name + [HYPHEN] + Decimal(2));
      assert r[..|Mangled(name)|] == r[0..0 + |Mangled(name)|];
    } else {
      r := new byte[|name| + 2](_ => 0);
      Overprint(r, name, p.value, [HYPHEN] + Decimal(suffix + 1));
    }
  }

  /** A name, then other text in place of its end. */
  method Overprint(r: array<byte>, name: seq<byte>, at: nat, text: seq<byte>)
    requires at <= |name| < r.Length && at + |text| < r.Length
    modifies r
    ensures r[..at + |text|] == name[..at] + text && r[at + |text|] == 0
  {
    Print(r, 0, name);
    assert r[..at] == r[0..0 + |name|][..at] == name[..at];
    Print(r, at, text);
    assert r[..at] == name[..at];
    assert r[..at + |text|] == r[..at] + r[at..at + |text|];
  }

  /** Text and a terminator stored at `at`. */
  method Print(r: array<byte>, at: nat, text: seq<byte>)
    requires at + |text| < r.Length
    modifies r
    ensures r[at..at + |text|] == text && r[at + |text|] == 0
    ensures forall i :: 0 <= i < at ==> r[i] == old(r[i])
  {
    for i := 0 to |text|
      invariant r[at..at + i] == text[..i]
      invariant forall k :: 0 <= k < at ==> r[k] == old(r[k])
    {
      r[at + i] := text[i];
    }
    r[at + |text|] := 0;
  }
}
