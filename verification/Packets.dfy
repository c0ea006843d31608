/** What the firewall's rules (agent/cmd/wharfinger-agent/firewall.go) do to a packet: the words of
    a rule are read as iptables reads them, and the first rule of the chain that takes a packet
    decides. Addresses are the numbers of IPv4 addresses. */
module Packets {
  import opened Options
  import opened Strings
  import opened Firewall

  datatype Protocol = Tcp(flags: set<string>) | Udp | Other

  datatype Packet = Packet(src: nat, dst: nat, protocol: Protocol)

  datatype Verdict = Accept | Drop

  /** What a rule makes of a packet: on to the next rule, out of the chain, or decided. */
  datatype Outcome = Next | Leave | Decided(verdict: Verdict)

  /** What the rest of the host makes of a packet: its chains and other targets by name (None hands
      the packet back), and rules with words that are not read here. */
  datatype Host = Host(target: string -> Option<Verdict>, unread: Rule -> Outcome)

  // ----- the words of a rule -----

  function Number(digits: string): nat {
    if digits == "" then 0
    else
      var c := digits[|digits| - 1];
      10 * Number(digits[..|digits| - 1]) + if '0' <= c <= '9' then c as nat - '0' as nat else 0
  }

  function Address(parts: seq<string>): nat {
    if parts == [] then 0 else 256 * Address(parts[..|parts| - 1]) + Number(parts[|parts| - 1])
  }

  function ShiftedRight(a: nat, k: nat): nat {
    if k == 0 then a else ShiftedRight(a / 2, k - 1)
  }

  /** The address shares the leading bits that a network in CIDR notation names. */
  predicate InNet(net: string, address: nat) {
    var halves := Split(net, '/');
    && |halves| == 2 && Number(halves[1]) <= 32
    && var k := 32 - Number(halves[1]);
       ShiftedRight(address, k) == ShiftedRight(Address(Split(halves[0], '.')), k)
  }

  function Flags(list: string): set<string> {
    set flag | flag in Split(list, ',')
  }

  /** Options of one argument that are read here. */
  predicate Known(option: string, arg: string) {
    || option in ["-s", "-d", "--comment"]
    || (option == "-p" && arg in ["tcp", "udp"])
    || (option == "-m" && arg in ["comment", "tcp"])
  }

  predicate Meets(option: string, arg: string, p: Packet) {
    match option
    case "-s" => InNet(arg, p.src)
    case "-d" => InNet(arg, p.dst)
    case "-p" => if arg == "tcp" then p.protocol.Tcp? else p.protocol.Udp?
    case _ => true
  }

  /** Of the flags in the mask exactly the listed ones are set. */
  predicate MeetsFlags(mask: string, wanted: string, p: Packet) {
    p.protocol.Tcp? && p.protocol.flags * Flags(mask) == Flags(wanted)
  }

  datatype Reading = Reading(meets: bool, target: string)

  /** The conditions in order, the jump last; None if some word is not read here. */
  function Read(words: Rule, p: Packet): Option<Reading> {
    if |words| < 2 then None
    else if words[0] == "-j" then if |words| == 2 then Some(Reading(true, words[1])) else None
    else if words[0] == "--tcp-flags" then
      if |words| < 3 then None else Both(MeetsFlags(words[1], words[2], p), Read(words[3..], p))
    else if Known(words[0], words[1]) then Both(Meets(words[0], words[1], p), Read(words[2..], p))
    else None
  }

  function Both(meets: bool, rest: Option<Reading>): Option<Reading> {
    match rest
    case None => None
    case Some(r) => Some(r.(meets := meets && r.meets))
  }

  function Jump(target: string, host: Host): Outcome {
    match target
    case "RETURN" => Leave
    case "ACCEPT" => Decided(Accept)
    case "DROP" => Decided(Drop)
    case _ =>
      match host.target(target)
      case Some(v) => Decided(v)
      case None => Next
  }

  function Effect(rule: Rule, p: Packet, host: Host): Outcome {
    match Read(rule, p)
    case None => host.unread(rule)
    case Some(r) => if r.meets then Jump(r.target, host) else Next
  }

  function Walk(chain: seq<Rule>, p: Packet, host: Host): Outcome {
    if chain == [] then Next
    else
      var first := Effect(chain[0], p, host);
      if first == Next then Walk(chain[1..], p, host) else first
  }

  function Else(first: Outcome, second: Outcome): Outcome {
    if first == Next then second else first
  }

  lemma {:induction false} WalkConcat(a: seq<Rule>, b: seq<Rule>, p: Packet, host: Host)
    ensures Walk(a + b, p, host) == Else(Walk(a, p, host), Walk(b, p, host))
  {
    if a == [] {
      assert a + b == b;
    } else {
      WalkConcat(a[1..], b, p, host);
      assert (a + b)[1..] == a[1..] + b;
    }
  }

  // ----- the networks -----

  /** 10.0.0.0 to 10.255.255.255, 172.16.0.0 to 172.31.255.255, 192.168.0.0 to 192.168.255.255. */
  predicate Private(address: nat) {
    || 0x0A00_0000 <= address <= 0x0AFF_FFFF
    || 0xAC10_0000 <= address <= 0xAC1F_FFFF
    || 0xC0A8_0000 <= address <= 0xC0A8_FFFF
  }

  predicate FourAt(s: string, sep: char, i: nat, j: nat, k: nat) {
    && i < j < k < |s| && s[i] == sep && s[j] == sep && s[k] == sep
    && sep !in s[..i] && sep !in s[i + 1..j] && sep !in s[j + 1..k] && sep !in s[k + 1..]
  }

  lemma SplitAt(s: string, sep: char, i: nat)
    requires i < |s| && s[i] == sep && sep !in s[..i]
    ensures Split(s, sep) == [s[..i]] + Split(s[i + 1..], sep)
  {
    assert s == s[..i] + [sep] + s[i + 1..];
    SplitAtFirst(s[..i], s[i + 1..], sep);
  }

  lemma SplitTwo(s: string, sep: char, i: nat)
    requires i < |s| && s[i] == sep && sep !in s[..i] && sep !in s[i + 1..]
    ensures Split(s, sep) == [s[..i], s[i + 1..]]
  {
    SplitAt(s, sep, i);
    SplitWhole(s[i + 1..], sep);
  }

  lemma SplitThree(s: string, sep: char, j: nat, k: nat)
    requires j < k < |s| && s[j] == sep && s[k] == sep && sep !in s[..j] && sep !in s[j + 1..k] && sep !in s[k + 1..]
    ensures Split(s, sep) == [s[..j], s[j + 1..k], s[k + 1..]]
  {
    var rest := s[j + 1..];
    SliceOfSlice(s, j + 1, k, |s|);
    SliceOfSlice(s, j + 1, j + 1, k);
    SplitAt(s, sep, j);
    SplitTwo(rest, sep, k - j - 1);
  }

  lemma SliceOfSlice(s: string, at: nat, i: nat, j: nat)
    requires at <= i <= j <= |s|
    ensures s[at..][i - at..j - at] == s[i..j]
    ensures i < j ==> s[at..][i - at] == s[i] && s[at..][i - at + 1..] == s[i + 1..] && s[at..][..i - at] == s[at..i]
  {}

  lemma SplitFour(s: string, sep: char, i: nat, j: nat, k: nat)
    requires FourAt(s, sep, i, j, k)
    ensures Split(s, sep) == [s[..i], s[i + 1..j], s[j + 1..k], s[k + 1..]]
  {
    SplitAt(s, sep, i);
    SplitRest(s, s[i + 1..], sep, i, j, k);
  }

  lemma SplitRest(s: string, t: string, sep: char, i: nat, j: nat, k: nat)
    requires FourAt(s, sep, i, j, k) && t == s[i + 1..]
    ensures Split(t, sep) == [s[i + 1..j], s[j + 1..k], s[k + 1..]]
  {
    var x, y := j - i - 1, k - i - 1;
    SliceOfSlice(s, i + 1, j, |s|);
    SliceOfSlice(s, i + 1, j + 1, k);
    SliceOfSlice(s, i + 1, k, |s|);
    assert t[..x] == s[i + 1..j] && t[x + 1..y] == s[j + 1..k] && t[y + 1..] == s[k + 1..];
    SplitThree(t, sep, x, y);
  }

  lemma FourParts(a: string, b: string, c: string, d: string)
    ensures Address([a, b, c, d]) == 256 * (256 * (256 * Number(a) + Number(b)) + Number(c)) + Number(d)
  {
    assert [a, b, c, d][..3] == [a, b, c] && [a, b, c][..2] == [a, b] && [a, b][..1] == [a] && [a][..0] == [];
    assert Address([a]) == Number(a);
    assert Address([a, b]) == 256 * Address([a]) + Number(b);
    assert Address([a, b, c]) == 256 * Address([a, b]) + Number(c);
  }

  function Value(c: char): int {
    c as int - '0' as int
  }

  predicate Digit(c: char) {
    '0' <= c <= '9'
  }

  lemma OneDigit(s: string)
    requires |s| == 1 && Digit(s[0])
    ensures Number(s) == Value(s[0])
  {
    assert s[..0] == "";
  }

  lemma TwoDigits(s: string)
    requires |s| == 2 && Digit(s[0]) && Digit(s[1])
    ensures Number(s) == 10 * Value(s[0]) + Value(s[1])
  {
    OneDigit(s[..1]);
  }

  lemma ThreeDigits(s: string)
    requires |s| == 3 && Digit(s[0]) && Digit(s[1]) && Digit(s[2])
    ensures Number(s) == 100 * Value(s[0]) + 10 * Value(s[1]) + Value(s[2])
  {
    TwoDigits(s[..2]);
  }

  function Power(n: nat): nat {
    if n == 0 then 1 else 2 * Power(n - 1)
  }

  lemma Sizes()
    ensures Power(24) == 0x100_0000 && Power(20) == 0x10_0000 && Power(16) == 0x1_0000
  {
    assert Power(4) == 16 && Power(8) == 16 * Power(4);
    assert Power(12) == 16 * Power(8) && Power(16) == 16 * Power(12);
    assert Power(20) == 16 * Power(16) && Power(24) == 16 * Power(20);
  }

  /** The numbers that shift to q are a block of the size of a power of two. */
  lemma {:induction false} ShiftsTo(a: nat, k: nat, q: nat)
    ensures ShiftedRight(a, k) == q <==> q * Power(k) <= a < q * Power(k) + Power(k)
  {
    if k > 0 {
      ShiftsTo(a / 2, k - 1, q);
      Doubled(q, Power(k - 1));
    }
  }

  lemma Doubled(q: nat, p: nat)
    ensures q * (2 * p) == 2 * (q * p)
  {}

  /** Dots at i, j and k, a slash at l, and no others. */
  predicate NetAt(net: string, i: nat, j: nat, k: nat, l: nat) {
    && i < j < k < l < |net| && net[i] == '.' && net[j] == '.' && net[k] == '.' && net[l] == '/'
    && Plain(net[..i]) && Plain(net[i + 1..j]) && Plain(net[j + 1..k]) && Plain(net[k + 1..l]) && Plain(net[l + 1..])
  }

  predicate Plain(s: string) {
    '.' !in s && '/' !in s
  }

  lemma Short(s: string)
    requires 1 <= |s| <= 3 && Digit(s[0]) && (|s| > 1 ==> Digit(s[1])) && (|s| > 2 ==> Digit(s[2]))
    ensures Plain(s)
  {}

  lemma NoSlash(net: string, i: nat, j: nat, k: nat, l: nat)
    requires NetAt(net, i, j, k, l)
    ensures '/' !in net[..l]
  {
    forall x | 0 <= x < l ensures net[..l][x] != '/' {
      if x < i {
        assert net[..i][x] == net[x];
      } else if i < x < j {
        assert net[i + 1..j][x - i - 1] == net[x];
      } else if j < x < k {
        assert net[j + 1..k][x - j - 1] == net[x];
      } else if k < x {
        assert net[k + 1..l][x - k - 1] == net[x];
      }
    }
  }

  lemma DottedParts(net: string, i: nat, j: nat, k: nat, l: nat)
    requires NetAt(net, i, j, k, l)
    ensures Split(net[..l], '.') == [net[..i], net[i + 1..j], net[j + 1..k], net[k + 1..l]]
  {
    var dotted := net[..l];
    assert dotted[..i] == net[..i] && dotted[i + 1..j] == net[i + 1..j] && dotted[j + 1..k] == net[j + 1..k];
    assert dotted[k + 1..] == net[k + 1..l];
    SplitFour(dotted, '.', i, j, k);
  }

  lemma BaseAddress(net: string, i: nat, j: nat, k: nat, l: nat, base: nat)
    requires NetAt(net, i, j, k, l)
    requires base == 256 * (256 * (256 * Number(net[..i]) + Number(net[i + 1..j])) + Number(net[j + 1..k])) + Number(net[k + 1..l])
    ensures Address(Split(net[..l], '.')) == base
  {
    DottedParts(net, i, j, k, l);
    FourParts(net[..i], net[i + 1..j], net[j + 1..k], net[k + 1..l]);
  }

  lemma NetMeans(net: string, l: nat, base: nat, k: nat, q: nat, size: nat, address: nat)
    requires l < |net| && net[l] == '/' && '/' !in net[..l] && '/' !in net[l + 1..] && k <= 32
    requires Address(Split(net[..l], '.')) == base && Number(net[l + 1..]) == 32 - k && Power(k) == size && q * size == base
    requires size > 0
    ensures InNet(net, address) <==> base <= address < base + size
  {
    SplitTwo(net, '/', l);
    ShiftsTo(base, k, q);
    ShiftsTo(address, k, q);
  }

  lemma TenAt()
    ensures NetAt(NETS[0], 2, 4, 6, 8)
  {
    var net := NETS[0];
    Short(net[..2]);
    Short(net[3..4]);
    Short(net[5..6]);
    Short(net[7..8]);
    Short(net[9..]);
  }

  lemma OneSevenTwoAt()
    ensures NetAt(NETS[1], 3, 6, 8, 10)
  {
    var net := NETS[1];
    Short(net[..3]);
    Short(net[4..6]);
    Short(net[7..8]);
    Short(net[9..10]);
    Short(net[11..]);
  }

  lemma OneNineTwoAt()
    ensures NetAt(NETS[2], 3, 7, 9, 11)
  {
    var net := NETS[2];
    Short(net[..3]);
    Short(net[4..7]);
    Short(net[8..9]);
    Short(net[10..11]);
    Short(net[12..]);
  }

  lemma TenRead()
    ensures var net := NETS[0];
            && Number(net[..2]) == 10 && Number(net[3..4]) == 0 && Number(net[5..6]) == 0 && Number(net[7..8]) == 0
            && Number(net[9..]) == 8
  {
    var net := NETS[0];
    TwoDigits(net[..2]);
    OneDigit(net[3..4]);
    OneDigit(net[5..6]);
    OneDigit(net[7..8]);
    OneDigit(net[9..]);
  }

  lemma OneSevenTwoRead()
    ensures var net := NETS[1];
            && Number(net[..3]) == 172 && Number(net[4..6]) == 16 && Number(net[7..8]) == 0 && Number(net[9..10]) == 0
            && Number(net[11..]) == 12
  {
    var net := NETS[1];
    ThreeDigits(net[..3]);
    TwoDigits(net[4..6]);
    OneDigit(net[7..8]);
    OneDigit(net[9..10]);
    TwoDigits(net[11..]);
  }

  lemma OneNineTwoRead()
    ensures var net := NETS[2];
            && Number(net[..3]) == 192 && Number(net[4..7]) == 168 && Number(net[8..9]) == 0 && Number(net[10..11]) == 0
            && Number(net[12..]) == 16
  {
    var net := NETS[2];
    ThreeDigits(net[..3]);
    ThreeDigits(net[4..7]);
    OneDigit(net[8..9]);
    OneDigit(net[10..11]);
    TwoDigits(net[12..]);
  }

  lemma TenMeans(address: nat)
    ensures InNet(NETS[0], address) <==> 0x0A00_0000 <= address < 0x0B00_0000
  {
    TenAt();
    NoSlash(NETS[0], 2, 4, 6, 8);
    Sizes();
    TenRead();
    BaseAddress(NETS[0], 2, 4, 6, 8, 0x0A00_0000);
    NetMeans(NETS[0], 8, 0x0A00_0000, 24, 0x0A, 0x100_0000, address);
  }

  lemma OneSevenTwoMeans(address: nat)
    ensures InNet(NETS[1], address) <==> 0xAC10_0000 <= address < 0xAC20_0000
  {
    OneSevenTwoAt();
    NoSlash(NETS[1], 3, 6, 8, 10);
    Sizes();
    OneSevenTwoRead();
    BaseAddress(NETS[1], 3, 6, 8, 10, 0xAC10_0000);
    NetMeans(NETS[1], 10, 0xAC10_0000, 20, 0xAC1, 0x10_0000, address);
  }

  lemma OneNineTwoMeans(address: nat)
    ensures InNet(NETS[2], address) <==> 0xC0A8_0000 <= address < 0xC0A9_0000
  {
    OneNineTwoAt();
    NoSlash(NETS[2], 3, 7, 9, 11);
    Sizes();
    OneNineTwoRead();
    BaseAddress(NETS[2], 3, 7, 9, 11, 0xC0A8_0000);
    NetMeans(NETS[2], 11, 0xC0A8_0000, 16, 0xC0A8, 0x1_0000, address);
  }

  /** The networks of the fix by their first and last addresses. */
  lemma NetsMean(address: nat)
    ensures InNet(NETS[0], address) <==> 0x0A00_0000 <= address <= 0x0AFF_FFFF
    ensures InNet(NETS[1], address) <==> 0xAC10_0000 <= address <= 0xAC1F_FFFF
    ensures InNet(NETS[2], address) <==> 0xC0A8_0000 <= address <= 0xC0A8_FFFF
  {
    TenMeans(address);
    OneSevenTwoMeans(address);
    OneNineTwoMeans(address);
  }

  // ----- the rules of the fix -----

  /** A TCP packet that opens a connection: SYN without FIN, RST or ACK; any UDP packet. */
  predicate Opening(p: Packet) {
    match p.protocol
    case Tcp(flags) => "SYN" in flags && "FIN" !in flags && "RST" !in flags && "ACK" !in flags
    case Udp => true
    case Other => false
  }

  lemma OptionNames()
    ensures "-s" != "-j" && "-d" != "-j" && "-p" != "-j" && "-m" != "-j" && "--comment" != "-j" && "--tcp-flags" != "-j"
    ensures "-s" != "--tcp-flags" && "-d" != "--tcp-flags" && "-p" != "--tcp-flags" && "-m" != "--tcp-flags"
    ensures "--comment" != "--tcp-flags"
  {
    assert "-j"[1] == 'j' && "-s"[1] == 's' && "-d"[1] == 'd' && "-p"[1] == 'p' && "-m"[1] == 'm';
    assert |"--comment"| == 9 && |"--tcp-flags"| == 11;
  }

  lemma ReadOption(words: Rule, option: string, arg: string, rest: Rule, p: Packet)
    requires words == [option, arg] + rest && Known(option, arg)
    ensures Read(words, p) == Both(Meets(option, arg, p), Read(rest, p))
  {
    OptionNames();
    assert words[2..] == rest;
  }

  const TAIL := ["-m", "comment", "--comment", TAG, "-j"]

  lemma ReadTail(jump: string, p: Packet)
    ensures Read(TAIL + [jump], p) == Some(Reading(true, jump))
  {
    assert TAIL + [jump] == ["-m", "comment", "--comment", TAG, "-j", jump];
    ReadOption(["-m", "comment", "--comment", TAG, "-j", jump], "-m", "comment", ["--comment", TAG, "-j", jump], p);
    ReadOption(["--comment", TAG, "-j", jump], "--comment", TAG, ["-j", jump], p);
  }

  lemma ReturnEffect(net: string, p: Packet, host: Host)
    ensures Effect(ReturnSpec(net), p, host) == if InNet(net, p.src) then Leave else Next
  {
    var tail := TAIL + ["RETURN"];
    ReadOption(ReturnSpec(net), "-s", net, tail, p);
    ReadTail("RETURN", p);
  }

  lemma UdpEffect(net: string, p: Packet, host: Host)
    ensures Effect(UdpDrop(net), p, host) == if p.protocol.Udp? && InNet(net, p.dst) then Decided(Drop) else Next
  {
    var tail := TAIL + ["DROP"];
    ReadOption(UdpDrop(net), "-p", "udp", ["-d", net] + tail, p);
    ReadOption(["-d", net] + tail, "-d", net, tail, p);
    ReadTail("DROP", p);
  }

  // One flag of the mask, cut out of it.
  lemma FlagIs(part: string, flag: string)
    requires |part| == 3 == |flag| && part[0] == flag[0] && part[1] == flag[1] && part[2] == flag[2]
    requires 'A' <= part[0] && 'A' <= part[1] && 'A' <= part[2]
    ensures part == flag && ',' !in part
  {}

  lemma MaskParts(mask: string)
    requires mask == "FIN,SYN,RST,ACK"
    ensures Split(mask, ',') == ["FIN", "SYN", "RST", "ACK"]
  {
    FlagIs(mask[..3], "FIN");
    FlagIs(mask[4..7], "SYN");
    FlagIs(mask[8..11], "RST");
    FlagIs(mask[12..], "ACK");
    SplitFour(mask, ',', 3, 7, 11);
  }

  lemma FourFlags(list: string, a: string, b: string, c: string, d: string)
    requires Split(list, ',') == [a, b, c, d]
    ensures Flags(list) == {a, b, c, d}
  {}

  lemma OneFlag(list: string, a: string)
    requires Split(list, ',') == [a]
    ensures Flags(list) == {a}
  {}

  lemma MaskFlags()
    ensures Flags("FIN,SYN,RST,ACK") == {"FIN", "SYN", "RST", "ACK"} && Flags("SYN") == {"SYN"}
  {
    MaskParts("FIN,SYN,RST,ACK");
    SplitWhole("SYN", ',');
    FourFlags("FIN,SYN,RST,ACK", "FIN", "SYN", "RST", "ACK");
    OneFlag("SYN", "SYN");
  }

  lemma FlagNamesDiffer()
    ensures "SYN" != "FIN" && "SYN" != "RST" && "SYN" != "ACK"
  {
    assert "SYN"[0] == 'S' && "FIN"[0] == 'F' && "RST"[0] == 'R' && "ACK"[0] == 'A';
  }

  lemma OpeningFlags(flags: set<string>, fin: string, syn: string, rst: string, ack: string)
    requires syn != fin && syn != rst && syn != ack
    ensures flags * {fin, syn, rst, ack} == {syn} <==> syn in flags && fin !in flags && rst !in flags && ack !in flags
  {
    var masked := flags * {fin, syn, rst, ack};
    if masked == {syn} {
      assert syn in masked && fin !in masked && rst !in masked && ack !in masked;
    }
  }

  lemma MeetsOpening(p: Packet)
    ensures MeetsFlags("FIN,SYN,RST,ACK", "SYN", p) <==> p.protocol.Tcp? && Opening(p)
  {
    MaskFlags();
    FlagNamesDiffer();
    if p.protocol.Tcp? { OpeningFlags(p.protocol.flags, "FIN", "SYN", "RST", "ACK"); }
  }

  lemma ReadFlags(words: Rule, mask: string, wanted: string, rest: Rule, p: Packet)
    requires words == ["--tcp-flags", mask, wanted] + rest
    ensures Read(words, p) == Both(MeetsFlags(mask, wanted, p), Read(rest, p))
  {
    OptionNames();
    assert words[3..] == rest;
  }

  lemma TcpWords(net: string)
    ensures TcpDrop(net)
         == ["-p", "tcp"] + (["-m", "tcp"] + (["--tcp-flags", "FIN,SYN,RST,ACK", "SYN"] + (["-d", net] + (TAIL + ["DROP"]))))
  {}

  lemma FlagsRead(net: string, tail: Rule, p: Packet)
    ensures Read(["--tcp-flags", "FIN,SYN,RST,ACK", "SYN"] + (["-d", net] + tail), p)
         == Both(MeetsFlags("FIN,SYN,RST,ACK", "SYN", p), Both(InNet(net, p.dst), Read(tail, p)))
  {
    ReadFlags(["--tcp-flags", "FIN,SYN,RST,ACK", "SYN"] + (["-d", net] + tail), "FIN,SYN,RST,ACK", "SYN", ["-d", net] + tail, p);
    ReadOption(["-d", net] + tail, "-d", net, tail, p);
  }

  lemma TcpRead(rest: Rule, p: Packet)
    ensures Read(["-p", "tcp"] + (["-m", "tcp"] + rest), p) == Both(p.protocol.Tcp?, Read(rest, p))
  {
    ReadOption(["-p", "tcp"] + (["-m", "tcp"] + rest), "-p", "tcp", ["-m", "tcp"] + rest, p);
    ReadOption(["-m", "tcp"] + rest, "-m", "tcp", rest, p);
  }

  lemma TcpEffect(net: string, p: Packet, host: Host)
    ensures Effect(TcpDrop(net), p, host)
         == if p.protocol.Tcp? && Opening(p) && InNet(net, p.dst) then Decided(Drop) else Next
  {
    TcpWords(net);
    TcpRead(["--tcp-flags", "FIN,SYN,RST,ACK", "SYN"] + (["-d", net] + (TAIL + ["DROP"])), p);
    FlagsRead(net, TAIL + ["DROP"], p);
    ReadTail("DROP", p);
    MeetsOpening(p);
  }

  lemma JumpEffect(p: Packet, host: Host)
    ensures Effect(TheFix().jump, p, host) == Jump("ufw-user-forward", host)
  {
    assert TheFix().jump == TAIL + ["ufw-user-forward"];
    ReadTail("ufw-user-forward", p);
  }

  lemma WalkThree(chain: seq<Rule>, p: Packet, host: Host)
    requires |chain| == 3
    ensures Walk(chain, p, host) == Else(Effect(chain[0], p, host), Else(Effect(chain[1], p, host), Effect(chain[2], p, host)))
  {
    assert Walk(chain[2..], p, host) == Effect(chain[2], p, host) by { assert chain[2..][1..] == []; }
    assert Walk(chain[1..], p, host) == Else(Effect(chain[1], p, host), Walk(chain[2..], p, host)) by {
      assert chain[1..][1..] == chain[2..];
    }
  }

  /** Three rules that differ in their network alone. */
  lemma NetsWalk(f: string -> Rule, meets: bool, address: nat, taken: Outcome, p: Packet, host: Host)
    requires forall net :: Effect(f(net), p, host) == if meets && InNet(net, address) then taken else Next
    ensures Walk(Each(f, NETS), p, host) == if meets && Private(address) then taken else Next
  {
    var rules := Each(f, NETS);
    WalkThree(rules, p, host);
    NetsMean(address);
    assert rules[0] == f(NETS[0]) && rules[1] == f(NETS[1]) && rules[2] == f(NETS[2]);
  }

  lemma EarlyWalk(p: Packet, host: Host)
    ensures Walk(TheFix().early, p, host) == if Private(p.src) then Leave else Next
  {
    forall net ensures Effect(ReturnSpec(net), p, host) == if InNet(net, p.src) then Leave else Next {
      ReturnEffect(net, p, host);
    }
    NetsWalk(ReturnSpec, true, p.src, Leave, p, host);
  }

  lemma TcpWalk(p: Packet, host: Host)
    ensures Walk(Each(TcpDrop, NETS), p, host)
         == if p.protocol.Tcp? && Opening(p) && Private(p.dst) then Decided(Drop) else Next
  {
    var meets := p.protocol.Tcp? && Opening(p);
    forall net ensures Effect(TcpDrop(net), p, host) == if meets && InNet(net, p.dst) then Decided(Drop) else Next {
      TcpEffect(net, p, host);
    }
    NetsWalk(TcpDrop, meets, p.dst, Decided(Drop), p, host);
  }

  lemma UdpWalk(p: Packet, host: Host)
    ensures Walk(Each(UdpDrop, NETS), p, host) == if p.protocol.Udp? && Private(p.dst) then Decided(Drop) else Next
  {
    forall net ensures Effect(UdpDrop(net), p, host) == if p.protocol.Udp? && InNet(net, p.dst) then Decided(Drop) else Next {
      UdpEffect(net, p, host);
    }
    NetsWalk(UdpDrop, p.protocol.Udp?, p.dst, Decided(Drop), p, host);
  }

  lemma DropsWalk(p: Packet, host: Host)
    ensures Walk(TheFix().drops, p, host) == if Opening(p) && Private(p.dst) then Decided(Drop) else Next
  {
    WalkConcat(Each(TcpDrop, NETS), Each(UdpDrop, NETS), p, host);
    TcpWalk(p, host);
    UdpWalk(p, host);
  }

  lemma JumpWalk(jump: bool, p: Packet, host: Host)
    ensures Walk(if jump then [TheFix().jump] else [], p, host) == if jump then Jump("ufw-user-forward", host) else Next
  {
    if jump {
      JumpEffect(p, host);
      assert Walk([TheFix().jump][1..], p, host) == Next;
    }
  }

  /** What ufw's chain, if the jump is there, and then the chain's own rules make of a packet. */
  function Claimed(own: seq<Rule>, jump: bool, p: Packet, host: Host): Outcome {
    Else(if jump then Jump("ufw-user-forward", host) else Next, Walk(own, p, host))
  }

  /** A packet in a chain that holds the whole fix: private sources leave at once, then ufw's chain
      has its say if the jump is there, then the chain's own rules, and a packet none of them took
      is dropped exactly if it opens a connection towards private space. */
  lemma FixedChainDecides(own: seq<Rule>, jump: bool, p: Packet, host: Host)
    ensures Walk(Shape(TheFix(), own, Full(TheFix(), jump)), p, host)
         == if Private(p.src) then Leave
            else Else(Claimed(own, jump, p, host), if Opening(p) && Private(p.dst) then Decided(Drop) else Next)
  {
    var fix := TheFix();
    var top := if jump then [fix.jump] else [];
    assert fix.early[..|fix.early|] == fix.early && fix.drops[..|fix.drops|] == fix.drops;
    WalkConcat(fix.early + top + own, fix.drops, p, host);
    WalkConcat(fix.early + top, own, p, host);
    WalkConcat(fix.early, top, p, host);
    EarlyWalk(p, host);
    JumpWalk(jump, p, host);
    DropsWalk(p, host);
  }

  /** After any interrupted attempts and a full run over a chain without tagged rules: an outside
      packet that opens a connection towards private space is dropped exactly if no rule claims it
      or one drops it. */
  lemma OpeningDroppedIff(own: seq<Rule>, attempts: seq<Attempt>, ufw: bool, p: Packet, host: Host)
    requires NoneTagged(own) && !Private(p.src) && Opening(p) && Private(p.dst)
    ensures var chain := Applied(RanAll(TheFix(), own, attempts), Plan(TheFix(), ufw));
            var claim := Claimed(own, ufw || Jumped(TheFix(), attempts), p, host);
            Walk(chain, p, host) == Decided(Drop) <==> claim == Next || claim == Decided(Drop)
  {
    FixApart(own);
    ResumedRunsComplete(TheFix(), own, attempts, ufw);
    FixedChainDecides(own, ufw || Jumped(TheFix(), attempts), p, host);
  }

  /** All other packets fare as the chain's own rules and ufw's have it, but for private sources,
      which those no longer see. */
  lemma OthersAsBefore(own: seq<Rule>, attempts: seq<Attempt>, ufw: bool, p: Packet, host: Host)
    requires NoneTagged(own) && (Private(p.src) || !Opening(p) || !Private(p.dst))
    ensures Walk(Applied(RanAll(TheFix(), own, attempts), Plan(TheFix(), ufw)), p, host)
         == if Private(p.src) then Leave else Claimed(own, ufw || Jumped(TheFix(), attempts), p, host)
  {
    FixApart(own);
    ResumedRunsComplete(TheFix(), own, attempts, ufw);
    FixedChainDecides(own, ufw || Jumped(TheFix(), attempts), p, host);
  }

  /** The drops are appended, so over a chain that ends in an unconditional return they are never
      reached: what its own rules let through still gets in. */
  lemma ReturnHidesDrops(own: seq<Rule>, ufw: bool, p: Packet, host: Host)
    requires NoneTagged(own) && own != [] && own[|own| - 1] == ["-j", "RETURN"]
    requires Walk(own[..|own| - 1], p, host) == Next && (ufw ==> Jump("ufw-user-forward", host) == Next)
    ensures Walk(Applied(own, Plan(TheFix(), ufw)), p, host) == Leave
  {
    var rest := own[..|own| - 1];
    assert own == rest + [["-j", "RETURN"]];
    WalkConcat(rest, [["-j", "RETURN"]], p, host);
    assert Walk([["-j", "RETURN"]], p, host) == Leave;
    FixApart(own);
    ResumedRunsComplete(TheFix(), own, [], ufw);
    FixedChainDecides(own, ufw, p, host);
  }
}
