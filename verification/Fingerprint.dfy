/** The consensus fingerprint's pre-image: two nodes print the same text only if they agree on every
    consensus input. */
module Fingerprint {
  import opened Blocks

  datatype GenesisBinding = GenesisBinding(genesisHash: string, genesisRules: string)

  datatype Inputs = Inputs(
    gitSha: string,
    halo2Verifier: bool,
    commdFoldVerify: bool,
    activationGated: seq<string>,
    pbaHardeningHeight: Option<nat>,
    agentPrecompilesHeight: Option<nat>,
    exactCreateCodeHeight: Option<nat>,
    vrfCanonicalEncodingHeight: Option<nat>,
    supplyHardeningHeight: Option<nat>,
    storageRootHardeningHeight: Option<nat>,
    valueTransferHeight: nat,
    createNonceFixHeight: nat,
    mergeDepthHeight: nat,
    baseFee: nat,
    epoch: nat,
    snapshotLag: nat,
    genesisBinding: Option<GenesisBinding>)

  const V3: string := "citrate-consensus-v3"
  const V4: string := "citrate-consensus-v4"

  /** The names of the lines. */
  datatype Name =
    | GitSha
    | Halo2
    | CommdFold
    | Gated
    | PbaHardening
    | ValueTransfer
    | CreateNonceFix
    | MergeDepth
    | BaseFee
    | Epoch
    | SnapshotLag
    | AgentPrecompiles
    | ExactCreateCode
    | VrfEncoding
    | SupplyHardening
    | StorageRoot
    | GenesisHash
    | GenesisRules

  function KeyText(n: Name): (s: string) {
    match n
    case GitSha => "git_sha"
    case Halo2 => "halo2_verifier"
    case CommdFold => "commd_fold_verify"
    case Gated => "activation_gated"
    case PbaHardening => "pba_hardening_height"
    case ValueTransfer => "value_transfer_height"
    case CreateNonceFix => "create_nonce_fix_height"
    case MergeDepth => "merge_depth_height"
    case BaseFee => "base_fee"
    case Epoch => "epoch"
    case SnapshotLag => "snapshot_lag"
    case AgentPrecompiles => "agent_precompiles_height"
    case ExactCreateCode => "exact_create_code_height"
    case VrfEncoding => "vrf_canonical_encoding_height"
    case SupplyHardening => "supply_hardening_height"
    case StorageRoot => "storage_root_hardening_height"
    case GenesisHash => "genesis_hash"
    case GenesisRules => "genesis_rules"
  }

  function Digit(n: nat): (c: char)
    requires n < 10
  {
    "0123456789"[n]
  }

  function Decimal(n: nat): (s: string) {
    if n < 10 then [Digit(n)] else Decimal(n / 10) + [Digit(n % 10)]
  }

  function BoolText(b: bool): (s: string) { if b then "true" else "false" }

  function Join(names: seq<string>): (s: string) {
    if names == [] then ""
    else if |names| == 1 then names[0]
    else names[0] + "|" + Join(names[1..])
  }

  /** One more line of the text. */
  function Line(text: string, name: Name, value: string): (s: string) {
    text + KeyText(name) + "=" + value + "\n"
  }

  function OptionalLine(text: string, name: Name, height: Option<nat>): (s: string) {
    match height case None => text case Some(h) => Line(text, name, Decimal(h))
  }

  function HeightText(height: Option<nat>): (s: string) {
    match height case None => "unset" case Some(h) => Decimal(h)
  }

  function StripPrefix(s: string, prefix: string): (t: string) {
    if prefix <= s then s[|prefix|..] else s
  }

  /** The lines every input prints. */
  function BaseText(i: Inputs): (s: string) {
    var t := Line(V3 + "\n", GitSha, i.gitSha);
    var t := Line(t, Halo2, BoolText(i.halo2Verifier));
    var t := Line(t, CommdFold, if i.commdFoldVerify then "gated" else "absent");
    var t := Line(t, Gated, Join(i.activationGated));
    var t := Line(t, PbaHardening, HeightText(i.pbaHardeningHeight));
    var t := Line(t, ValueTransfer, Decimal(i.valueTransferHeight));
    var t := Line(t, CreateNonceFix, Decimal(i.createNonceFixHeight));
    var t := Line(t, MergeDepth, Decimal(i.mergeDepthHeight));
    var t := Line(t, BaseFee, Decimal(i.baseFee));
    var t := Line(t, Epoch, Decimal(i.epoch));
    Line(t, SnapshotLag, Decimal(i.snapshotLag))
  }

  /** Lines appended only when their height is scheduled. */
  function Scheduled(i: Inputs): (s: string) {
    var t := OptionalLine(BaseText(i), AgentPrecompiles, i.agentPrecompilesHeight);
    var t := OptionalLine(t, ExactCreateCode, i.exactCreateCodeHeight);
    var t := OptionalLine(t, VrfEncoding, i.vrfCanonicalEncodingHeight);
    var t := OptionalLine(t, SupplyHardening, i.supplyHardeningHeight);
    OptionalLine(t, StorageRoot, i.storageRootHardeningHeight)
  }

  /** `fingerprint_preimage`: a genesis binding switches the tag and appends two lines. */
  function Preimage(i: Inputs): (s: string) {
    match i.genesisBinding
    case None => Scheduled(i)
    case Some(b) =>
      Line(Line(V4 + StripPrefix(Scheduled(i), V3), GenesisHash, b.genesisHash), GenesisRules, b.genesisRules)
  }

  // The same text as the format strings spell it.

  ghost function HeightWord(height: Option<nat>): (s: string) {
    if height.None? then "unset" else Decimal(height.value)
  }

  ghost function BaseFormat(i: Inputs): (s: string) {
    "citrate-consensus-v3\n"
    + "git_sha=" + i.gitSha + "\n"
    + "halo2_verifier=" + (if i.halo2Verifier then "true" else "false") + "\n"
    + "commd_fold_verify=" + (if i.commdFoldVerify then "gated" else "absent") + "\n"
    + "activation_gated=" + Join(i.activationGated) + "\n"
    + "pba_hardening_height=" + HeightWord(i.pbaHardeningHeight) + "\n"
    + "value_transfer_height=" + Decimal(i.valueTransferHeight) + "\n"
    + "create_nonce_fix_height=" + Decimal(i.createNonceFixHeight) + "\n"
    + "merge_depth_height=" + Decimal(i.mergeDepthHeight) + "\n"
    + "base_fee=" + Decimal(i.baseFee) + "\n"
    + "epoch=" + Decimal(i.epoch) + "\n"
    + "snapshot_lag=" + Decimal(i.snapshotLag) + "\n"
  }

  ghost function Appended(text: string, head: string, height: Option<nat>): (s: string) {
    if height.None? then text else text + head + Decimal(height.value) + "\n"
  }

  ghost function Format(i: Inputs): (s: string) {
    var t := Appended(BaseFormat(i), "agent_precompiles_height=", i.agentPrecompilesHeight);
    var t := Appended(t, "exact_create_code_height=", i.exactCreateCodeHeight);
    var t := Appended(t, "vrf_canonical_encoding_height=", i.vrfCanonicalEncodingHeight);
    var t := Appended(t, "supply_hardening_height=", i.supplyHardeningHeight);
    Appended(t, "storage_root_hardening_height=", i.storageRootHardeningHeight)
  }

  lemma LineReads(text: string, name: Name, value: string, head: string)
    requires KeyText(name) + "=" == head
    ensures Line(text, name, value) == text + head + value + "\n"
  {
    assert text + KeyText(name) + "=" == text + (KeyText(name) + "=");
  }

  lemma OptionalReads(text: string, name: Name, height: Option<nat>, head: string)
    requires KeyText(name) + "=" == head
    ensures OptionalLine(text, name, height) == Appended(text, head, height)
  {
    if height.Some? { LineReads(text, name, Decimal(height.value), head); }
  }

  lemma Labels1()
    ensures KeyText(GitSha) + "=" == "git_sha=" && KeyText(Halo2) + "=" == "halo2_verifier="
    ensures KeyText(CommdFold) + "=" == "commd_fold_verify=" && KeyText(Gated) + "=" == "activation_gated="
    ensures KeyText(BaseFee) + "=" == "base_fee=" && KeyText(Epoch) + "=" == "epoch="
    ensures KeyText(SnapshotLag) + "=" == "snapshot_lag="
  {
  }

  lemma Labels2()
    ensures KeyText(PbaHardening) + "=" == "pba_hardening_height="
    ensures KeyText(ValueTransfer) + "=" == "value_transfer_height="
    ensures KeyText(CreateNonceFix) + "=" == "create_nonce_fix_height="
    ensures KeyText(MergeDepth) + "=" == "merge_depth_height="
  {
  }

  lemma Labels3()
    ensures KeyText(AgentPrecompiles) + "=" == "agent_precompiles_height="
    ensures KeyText(ExactCreateCode) + "=" == "exact_create_code_height="
    ensures KeyText(VrfEncoding) + "=" == "vrf_canonical_encoding_height="
  {
  }

  lemma Labels4()
    ensures KeyText(SupplyHardening) + "=" == "supply_hardening_height="
    ensures KeyText(StorageRoot) + "=" == "storage_root_hardening_height="
    ensures KeyText(GenesisHash) + "=" == "genesis_hash=" && KeyText(GenesisRules) + "=" == "genesis_rules="
  {
  }

  lemma BaseReads(i: Inputs)
    ensures BaseText(i) == BaseFormat(i)
  {
    Labels1();
    Labels2();
    assert V3 + "\n" == "citrate-consensus-v3\n";
    assert BoolText(i.halo2Verifier) == if i.halo2Verifier then "true" else "false";
    assert HeightText(i.pbaHardeningHeight) == HeightWord(i.pbaHardeningHeight);
    hide Line, Join, Decimal, HeightText, HeightWord, BoolText, KeyText;
    var t0 := V3 + "\n";
    LineReads(t0, GitSha, i.gitSha, "git_sha=");
    var t1 := Line(t0, GitSha, i.gitSha);
    LineReads(t1, Halo2, BoolText(i.halo2Verifier), "halo2_verifier=");
    var t2 := Line(t1, Halo2, BoolText(i.halo2Verifier));
    LineReads(t2, CommdFold, if i.commdFoldVerify then "gated" else "absent", "commd_fold_verify=");
    var t3 := Line(t2, CommdFold, if i.commdFoldVerify then "gated" else "absent");
    LineReads(t3, Gated, Join(i.activationGated), "activation_gated=");
    var t4 := Line(t3, Gated, Join(i.activationGated));
    LineReads(t4, PbaHardening, HeightText(i.pbaHardeningHeight), "pba_hardening_height=");
    var t5 := Line(t4, PbaHardening, HeightText(i.pbaHardeningHeight));
    LineReads(t5, ValueTransfer, Decimal(i.valueTransferHeight), "value_transfer_height=");
    var t6 := Line(t5, ValueTransfer, Decimal(i.valueTransferHeight));
    LineReads(t6, CreateNonceFix, Decimal(i.createNonceFixHeight), "create_nonce_fix_height=");
    var t7 := Line(t6, CreateNonceFix, Decimal(i.createNonceFixHeight));
    LineReads(t7, MergeDepth, Decimal(i.mergeDepthHeight), "merge_depth_height=");
    var t8 := Line(t7, MergeDepth, Decimal(i.mergeDepthHeight));
    LineReads(t8, BaseFee, Decimal(i.baseFee), "base_fee=");
    var t9 := Line(t8, BaseFee, Decimal(i.baseFee));
    LineReads(t9, Epoch, Decimal(i.epoch), "epoch=");
    LineReads(Line(t9, Epoch, Decimal(i.epoch)), SnapshotLag, Decimal(i.snapshotLag), "snapshot_lag=");
  }

  /** Without a binding the text is the format; with one, the format under the other tag and two more lines. */
  lemma PreimageReads(i: Inputs)
    ensures i.genesisBinding.None? ==> Preimage(i) == Format(i)
    ensures i.genesisBinding.Some? ==>
      && |Format(i)| >= 20
      && Preimage(i) ==
         "citrate-consensus-v4" + Format(i)[20..] + "genesis_hash=" + i.genesisBinding.value.genesisHash + "\n"
         + "genesis_rules=" + i.genesisBinding.value.genesisRules + "\n"
  {
    Labels3();
    Labels4();
    ScheduledTag(i);
    BaseReads(i);
    hide Line, OptionalLine, Appended, BaseText, BaseFormat, Decimal, KeyText;
    OptionalReads(BaseText(i), AgentPrecompiles, i.agentPrecompilesHeight, "agent_precompiles_height=");
    var t1 := OptionalLine(BaseText(i), AgentPrecompiles, i.agentPrecompilesHeight);
    OptionalReads(t1, ExactCreateCode, i.exactCreateCodeHeight, "exact_create_code_height=");
    var t2 := OptionalLine(t1, ExactCreateCode, i.exactCreateCodeHeight);
    OptionalReads(t2, VrfEncoding, i.vrfCanonicalEncodingHeight, "vrf_canonical_encoding_height=");
    var t3 := OptionalLine(t2, VrfEncoding, i.vrfCanonicalEncodingHeight);
    OptionalReads(t3, SupplyHardening, i.supplyHardeningHeight, "supply_hardening_height=");
    var t4 := OptionalLine(t3, SupplyHardening, i.supplyHardeningHeight);
    OptionalReads(t4, StorageRoot, i.storageRootHardeningHeight, "storage_root_hardening_height=");
    assert Scheduled(i) == Format(i);
    if i.genesisBinding.Some? {
      var b := i.genesisBinding.value;
      var t := V4 + StripPrefix(Scheduled(i), V3);
      assert StripPrefix(Scheduled(i), V3) == Format(i)[20..];
      LineReads(t, GenesisHash, b.genesisHash, "genesis_hash=");
      LineReads(Line(t, GenesisHash, b.genesisHash), GenesisRules, b.genesisRules, "genesis_rules=");
    }
  }

  lemma ScheduledTag(i: Inputs)
    ensures |V3| == 20 && V3 <= Scheduled(i)
  {
    hide Scheduled, Body, Unbound, Fields;
    ScheduledIsText(i);
  }

  // Numbers and lists read back.

  /** The number a digit string stands for, read from the left. */
  ghost function Value(s: string): (n: int) {
    if s == "" then 0 else Value(s[..|s| - 1]) * 10 + (s[|s| - 1] as int - '0' as int)
  }

  lemma {:induction false} DecimalReads(n: nat)
    ensures Decimal(n) != "" && Value(Decimal(n)) == n && (n > 0 ==> Decimal(n)[0] != '0')
  {
    if n >= 10 {
      DecimalReads(n / 10);
      var s := Decimal(n);
      assert s[..|s| - 1] == Decimal(n / 10);
      DigitReads(n % 10);
    } else {
      DigitReads(n);
      assert Decimal(n)[..0] == "";
    }
  }

  lemma DigitReads(n: nat)
    requires n < 10
    ensures Digit(n) as int - '0' as int == n
  {
  }

  /** Names are joined in their order, with one bar between neighbours. */
  lemma {:induction false} JoinReads(names: seq<string>, last: string)
    ensures Join(names + [last]) == if names == [] then last else Join(names) + "|" + last
  {
    if |names| == 0 {
      assert names + [last] == [last];
    } else {
      var all := names + [last];
      assert all[1..] == names[1..] + [last];
      JoinReads(names[1..], last);
      if |names| == 1 { assert names[1..] == []; }
    }
  }

  /** The strings an input may carry: no newline anywhere, rule names non-empty and without a bar. */
  ghost predicate Clean(i: Inputs) {
    && '\n' !in i.gitSha
    && (forall n :: n in i.activationGated ==> n != "" && '|' !in n && '\n' !in n)
    && (i.genesisBinding.Some? ==>
          '\n' !in i.genesisBinding.value.genesisHash && '\n' !in i.genesisBinding.value.genesisRules)
  }

  // The text as a tag and a list of fields.

  datatype Field = Field(name: Name, value: string)

  ghost predicate FieldOk(f: Field) { '\n' !in f.value }

  ghost predicate PlainText(s: string) { forall i :: 0 <= i < |s| ==> s[i] != '=' && s[i] != '\n' }

  lemma PlainKeys1()
    ensures PlainText(KeyText(GitSha))
    ensures PlainText(KeyText(Halo2))
    ensures PlainText(KeyText(CommdFold))
    ensures PlainText(KeyText(Gated))
    ensures PlainText(KeyText(BaseFee))
    ensures PlainText(KeyText(Epoch))
  {
  }

  lemma PlainKeys2()
    ensures PlainText(KeyText(PbaHardening))
    ensures PlainText(KeyText(ValueTransfer))
    ensures PlainText(KeyText(SnapshotLag))
    ensures PlainText(KeyText(GenesisHash))
  {
  }

  lemma PlainKeys3()
    ensures PlainText(KeyText(CreateNonceFix))
    ensures PlainText(KeyText(MergeDepth))
    ensures PlainText(KeyText(GenesisRules))
  {
  }

  lemma PlainKeys4()
    ensures PlainText(KeyText(AgentPrecompiles))
    ensures PlainText(KeyText(ExactCreateCode))
    ensures PlainText(KeyText(SupplyHardening))
  {
  }

  lemma PlainKeys5()
    ensures PlainText(KeyText(VrfEncoding))
    ensures PlainText(KeyText(StorageRoot))
  {
  }

  /** A line name has no separator in it. */
  lemma KeyPlain(n: Name)
    ensures '=' !in KeyText(n) && '\n' !in KeyText(n)
  {
    hide KeyText;
    PlainKeys1();
    PlainKeys2();
    PlainKeys3();
    PlainKeys4();
    PlainKeys5();
    assert PlainText(KeyText(n));
  }

  /** The first two letters and the length tell the names apart. */
  function NameOf(s: string): (n: Name)
    requires |s| >= 2
  {
    match s[0]
    case 'h' => Halo2
    case 'p' => PbaHardening
    case 'm' => MergeDepth
    case 'b' => BaseFee
    case 'c' => if s[1] == 'o' then CommdFold else CreateNonceFix
    case 'a' => if s[1] == 'c' then Gated else AgentPrecompiles
    case 'v' => if s[1] == 'a' then ValueTransfer else VrfEncoding
    case 'e' => if s[1] == 'p' then Epoch else ExactCreateCode
    case 's' => if s[1] == 'n' then SnapshotLag else if s[1] == 'u' then SupplyHardening else StorageRoot
    case _ => if s[1] == 'i' then GitSha else if |s| == 12 then GenesisHash else GenesisRules
  }

  lemma NamesDiffer(n: Name)
    ensures |KeyText(n)| >= 2 && NameOf(KeyText(n)) == n
  {
  }

  ghost function Body(fs: seq<Field>): (s: string) {
    if fs == [] then "" else KeyText(fs[0].name) + "=" + fs[0].value + "\n" + Body(fs[1..])
  }

  ghost function Text(tag: string, fs: seq<Field>): (s: string) { tag + "\n" + Body(fs) }

  /** A separator that occurs in neither head splits both texts at the same place. */
  lemma {:induction false} FirstSplit(a: string, x: string, b: string, y: string, c: char)
    requires c !in a && c !in b && a + [c] + x == b + [c] + y
    ensures a == b && x == y
  {
    var s := a + [c] + x;
    assert s[|a|] == c && s[|b|] == c;
    assert forall k :: 0 <= k < |a| ==> s[k] == a[k];
    assert forall k :: 0 <= k < |b| ==> s[k] == b[k];
    assert |a| == |b|;
    assert a == s[..|a|] && b == s[..|b|];
    assert x == s[|a| + 1..] && y == s[|b| + 1..];
  }

  lemma {:induction false} BodyInjective(fs: seq<Field>, gs: seq<Field>)
    requires (forall f :: f in fs ==> FieldOk(f)) && (forall g :: g in gs ==> FieldOk(g))
    requires Body(fs) == Body(gs)
    ensures fs == gs
  {
    hide KeyText;
    if fs != [] && gs != [] {
      var f, g := fs[0], gs[0];
      KeyPlain(f.name);
      KeyPlain(g.name);
      NamesDiffer(f.name);
      NamesDiffer(g.name);
      assert FieldOk(f) && FieldOk(g);
      assert Body(fs) == (KeyText(f.name) + "=" + f.value) + ['\n'] + Body(fs[1..]);
      assert Body(gs) == (KeyText(g.name) + "=" + g.value) + ['\n'] + Body(gs[1..]);
      FirstSplit(KeyText(f.name) + "=" + f.value, Body(fs[1..]), KeyText(g.name) + "=" + g.value, Body(gs[1..]), '\n');
      FirstSplit(KeyText(f.name), f.value, KeyText(g.name), g.value, '=');
      BodyInjective(fs[1..], gs[1..]);
    }
  }

  lemma {:induction false} BodyAppend(fs: seq<Field>, name: Name, value: string)
    ensures Body(fs + [Field(name, value)]) == Line(Body(fs), name, value)
  {
    hide KeyText;
    if fs == [] {
      assert fs + [Field(name, value)] == [Field(name, value)];
      assert Body([Field(name, value)]) == KeyText(name) + "=" + value + "\n" + Body([]);
    } else {
      assert (fs + [Field(name, value)])[1..] == fs[1..] + [Field(name, value)];
      BodyAppend(fs[1..], name, value);
    }
  }

  lemma LineAppends(tag: string, fs: seq<Field>, name: Name, value: string)
    ensures Line(Text(tag, fs), name, value) == Text(tag, fs + [Field(name, value)])
  {
    BodyAppend(fs, name, value);
  }

  ghost function Opt(name: Name, height: Option<nat>): (fs: seq<Field>) {
    match height case None => [] case Some(h) => [Field(name, Decimal(h))]
  }

  lemma OptionalAppends(tag: string, fs: seq<Field>, name: Name, height: Option<nat>)
    ensures OptionalLine(Text(tag, fs), name, height) == Text(tag, fs + Opt(name, height))
  {
    if height.Some? { LineAppends(tag, fs, name, Decimal(height.value)); } else { assert fs + [] == fs; }
  }

  ghost function Required(i: Inputs): (fs: seq<Field>) {
    [ Field(GitSha, i.gitSha),
      Field(Halo2, BoolText(i.halo2Verifier)),
      Field(CommdFold, if i.commdFoldVerify then "gated" else "absent"),
      Field(Gated, Join(i.activationGated)),
      Field(PbaHardening, HeightText(i.pbaHardeningHeight)),
      Field(ValueTransfer, Decimal(i.valueTransferHeight)),
      Field(CreateNonceFix, Decimal(i.createNonceFixHeight)),
      Field(MergeDepth, Decimal(i.mergeDepthHeight)),
      Field(BaseFee, Decimal(i.baseFee)),
      Field(Epoch, Decimal(i.epoch)),
      Field(SnapshotLag, Decimal(i.snapshotLag)) ]
  }

  ghost function Binding(i: Inputs): (fs: seq<Field>) {
    match i.genesisBinding
    case None => []
    case Some(b) => [Field(GenesisHash, b.genesisHash), Field(GenesisRules, b.genesisRules)]
  }

  ghost function HeightsFrom(i: Inputs, n: nat): (fs: seq<Field>)
    decreases 5 - n
  {
    if n == 0 then Opt(AgentPrecompiles, i.agentPrecompilesHeight) + HeightsFrom(i, 1)
    else if n == 1 then Opt(ExactCreateCode, i.exactCreateCodeHeight) + HeightsFrom(i, 2)
    else if n == 2 then Opt(VrfEncoding, i.vrfCanonicalEncodingHeight) + HeightsFrom(i, 3)
    else if n == 3 then Opt(SupplyHardening, i.supplyHardeningHeight) + HeightsFrom(i, 4)
    else if n == 4 then Opt(StorageRoot, i.storageRootHardeningHeight) + HeightsFrom(i, 5)
    else Binding(i)
  }

  ghost function Tag(i: Inputs): (s: string) { if i.genesisBinding.None? then V3 else V4 }

  ghost function Fields(i: Inputs): (fs: seq<Field>) { Required(i) + HeightsFrom(i, 0) }

  lemma BaseIsText(i: Inputs)
    ensures BaseText(i) == Text(V3, Required(i))
  {
    hide Line, Text, Decimal, Join, HeightText, BoolText;
    var f := Required(i);
    assert V3 + "\n" == Text(V3, []) by { EmptyText(V3); }
    assert f[..0] == [] && f[..11] == f;
    LineAppends(V3, f[..0], f[0].name, f[0].value); assert f[..0] + [f[0]] == f[..1];
    LineAppends(V3, f[..1], f[1].name, f[1].value); assert f[..1] + [f[1]] == f[..2];
    LineAppends(V3, f[..2], f[2].name, f[2].value); assert f[..2] + [f[2]] == f[..3];
    LineAppends(V3, f[..3], f[3].name, f[3].value); assert f[..3] + [f[3]] == f[..4];
    LineAppends(V3, f[..4], f[4].name, f[4].value); assert f[..4] + [f[4]] == f[..5];
    LineAppends(V3, f[..5], f[5].name, f[5].value); assert f[..5] + [f[5]] == f[..6];
    LineAppends(V3, f[..6], f[6].name, f[6].value); assert f[..6] + [f[6]] == f[..7];
    LineAppends(V3, f[..7], f[7].name, f[7].value); assert f[..7] + [f[7]] == f[..8];
    LineAppends(V3, f[..8], f[8].name, f[8].value); assert f[..8] + [f[8]] == f[..9];
    LineAppends(V3, f[..9], f[9].name, f[9].value); assert f[..9] + [f[9]] == f[..10];
    LineAppends(V3, f[..10], f[10].name, f[10].value); assert f[..10] + [f[10]] == f[..11];
  }

  lemma EmptyText(tag: string)
    ensures Text(tag, []) == tag + "\n"
  {
    assert tag + "\n" + "" == tag + "\n";
  }

  /** The text without the binding. */
  ghost function Unbound(i: Inputs): (fs: seq<Field>) {
    Required(i) + Opt(AgentPrecompiles, i.agentPrecompilesHeight)
    + Opt(ExactCreateCode, i.exactCreateCodeHeight)
    + Opt(VrfEncoding, i.vrfCanonicalEncodingHeight)
    + Opt(SupplyHardening, i.supplyHardeningHeight)
    + Opt(StorageRoot, i.storageRootHardeningHeight)
  }

  lemma ScheduledIsText(i: Inputs)
    ensures Scheduled(i) == Text(V3, Unbound(i)) && Fields(i) == Unbound(i) + Binding(i)
  {
    hide Text, Required, BaseText, OptionalLine, Opt;
    BaseIsText(i);
    var f0 := Required(i);
    OptionalAppends(V3, f0, AgentPrecompiles, i.agentPrecompilesHeight);
    var f1 := f0 + Opt(AgentPrecompiles, i.agentPrecompilesHeight);
    OptionalAppends(V3, f1, ExactCreateCode, i.exactCreateCodeHeight);
    var f2 := f1 + Opt(ExactCreateCode, i.exactCreateCodeHeight);
    OptionalAppends(V3, f2, VrfEncoding, i.vrfCanonicalEncodingHeight);
    var f3 := f2 + Opt(VrfEncoding, i.vrfCanonicalEncodingHeight);
    OptionalAppends(V3, f3, SupplyHardening, i.supplyHardeningHeight);
    var f4 := f3 + Opt(SupplyHardening, i.supplyHardeningHeight);
    OptionalAppends(V3, f4, StorageRoot, i.storageRootHardeningHeight);
    HeightsFlat(i);
    assert Unbound(i) + Binding(i) == f0 + HeightsFrom(i, 0);
  }

  lemma HeightsFlat(i: Inputs)
    ensures HeightsFrom(i, 0) ==
      Opt(AgentPrecompiles, i.agentPrecompilesHeight)
      + Opt(ExactCreateCode, i.exactCreateCodeHeight)
      + Opt(VrfEncoding, i.vrfCanonicalEncodingHeight)
      + Opt(SupplyHardening, i.supplyHardeningHeight)
      + Opt(StorageRoot, i.storageRootHardeningHeight)
      + Binding(i)
  {
    hide Opt, Binding;
    assert HeightsFrom(i, 3) == Opt(SupplyHardening, i.supplyHardeningHeight) + HeightsFrom(i, 4);
    assert HeightsFrom(i, 1) == Opt(ExactCreateCode, i.exactCreateCodeHeight) + HeightsFrom(i, 2);
  }

  /** The text is a tag line and one line per field, with or without a binding. */
  lemma PreimageIsText(i: Inputs)
    ensures Preimage(i) == Text(Tag(i), Fields(i))
  {
    hide Line, Scheduled, Unbound, Fields, Body;
    ScheduledIsText(i);
    match i.genesisBinding
    case None => assert Unbound(i) + Binding(i) == Unbound(i);
    case Some(b) =>
      assert V3 <= Text(V3, Unbound(i));
      assert StripPrefix(Text(V3, Unbound(i)), V3) == "\n" + Body(Unbound(i));
      assert V4 + StripPrefix(Scheduled(i), V3) == Text(V4, Unbound(i));
      LineAppends(V4, Unbound(i), GenesisHash, b.genesisHash);
      LineAppends(V4, Unbound(i) + [Field(GenesisHash, b.genesisHash)], GenesisRules, b.genesisRules);
      assert Unbound(i) + [Field(GenesisHash, b.genesisHash)] + [Field(GenesisRules, b.genesisRules)] == Fields(i);
  }

  // Values that never contain the separators, and are injective.

  lemma {:induction false} DecimalPlain(n: nat)
    ensures Decimal(n) != "" && '0' <= Decimal(n)[0] <= '9' && forall c :: c in Decimal(n) ==> '0' <= c <= '9'
  {
    if n >= 10 { DecimalPlain(n / 10); }
  }

  lemma {:induction false} DecimalInjective(m: nat, n: nat)
    requires Decimal(m) == Decimal(n)
    ensures m == n
  {
    DecimalPlain(m / 10);
    DecimalPlain(n / 10);
    var s, t := Decimal(m), Decimal(n);
    assert s[|s| - 1] == Digit(m % 10) && t[|t| - 1] == Digit(n % 10);
    DigitInjective(m % 10, n % 10);
    if m >= 10 && n >= 10 {
      assert Decimal(m / 10) == s[..|s| - 1] && Decimal(n / 10) == t[..|t| - 1];
      DecimalInjective(m / 10, n / 10);
    }
  }

  lemma DigitInjective(a: nat, b: nat)
    requires a < 10 && b < 10
    ensures Digit(a) == Digit(b) ==> a == b
  {
  }

  lemma HeightInjective(a: Option<nat>, b: Option<nat>)
    requires HeightText(a) == HeightText(b)
    ensures a == b
  {
    if a.Some? { DecimalPlain(a.value); }
    if b.Some? { DecimalPlain(b.value); }
    assert "unset"[0] == 'u';
    if a.Some? && b.Some? { DecimalInjective(a.value, b.value); }
  }

  ghost predicate CleanNames(names: seq<string>) { forall n :: n in names ==> n != "" && '|' !in n }

  lemma {:induction false} JoinInjective(a: seq<string>, b: seq<string>)
    requires CleanNames(a) && CleanNames(b) && Join(a) == Join(b)
    ensures a == b
  {
    JoinHead(a);
    JoinHead(b);
    if |a| > 1 && |b| > 1 {
      assert a[0] in a && b[0] in b;
      assert Join(a) == a[0] + ['|'] + Join(a[1..]) && Join(b) == b[0] + ['|'] + Join(b[1..]);
      FirstSplit(a[0], Join(a[1..]), b[0], Join(b[1..]), '|');
      assert forall n :: n in a[1..] ==> n in a;
      assert forall n :: n in b[1..] ==> n in b;
      JoinInjective(a[1..], b[1..]);
    }
  }

  /** The number of names shows in the text. */
  lemma JoinHead(a: seq<string>)
    requires CleanNames(a)
    ensures Join(a) == "" <==> a == []
    ensures '|' in Join(a) <==> |a| > 1
    ensures |a| == 1 ==> Join(a) == a[0]
  {
    if a != [] { assert a[0] in a; }
    if |a| > 1 { assert Join(a)[|a[0]|] == '|'; }
  }

  lemma {:induction false} JoinPlain(a: seq<string>)
    requires forall n :: n in a ==> '\n' !in n
    ensures '\n' !in Join(a)
  {
    if a != [] { assert a[0] in a; }
    if |a| > 1 { JoinPlain(a[1..]); }
  }

  lemma FieldsOk(i: Inputs)
    requires Clean(i)
    ensures forall f :: f in Fields(i) ==> FieldOk(f)
  {
    hide Decimal, Join, HeightText, BoolText, HeightsFrom;
    JoinPlain(i.activationGated);
    forall n: nat ensures '\n' !in Decimal(n) { DecimalPlain(n); }
    WordsPlain(i);
    HeightsOk(i, 0);
  }

  lemma WordsPlain(i: Inputs)
    ensures '\n' !in HeightText(i.pbaHardeningHeight) && '\n' !in BoolText(i.halo2Verifier)
    ensures '\n' !in (if i.commdFoldVerify then "gated" else "absent")
  {
    if i.pbaHardeningHeight.Some? { DecimalPlain(i.pbaHardeningHeight.value); }
  }

  lemma OptOk(name: Name, height: Option<nat>)
    ensures forall f :: f in Opt(name, height) ==> FieldOk(f) && f.name == name
  {
    if height.Some? { DecimalPlain(height.value); }
  }

  /** The optional part and the binding: clean fields whose names come no earlier than `n`. */
  lemma {:induction false} HeightsOk(i: Inputs, n: nat)
    requires Clean(i) && n <= 5
    ensures forall f :: f in HeightsFrom(i, n) ==> FieldOk(f) && Rank(f.name) >= n
    decreases 5 - n
  {
    hide Opt, KeyText;
    if n < 5 {
      HeightsOk(i, n + 1);
      OptOk(AgentPrecompiles, i.agentPrecompilesHeight);
      OptOk(ExactCreateCode, i.exactCreateCodeHeight);
      OptOk(VrfEncoding, i.vrfCanonicalEncodingHeight);
      OptOk(SupplyHardening, i.supplyHardeningHeight);
      OptOk(StorageRoot, i.storageRootHardeningHeight);
    }
  }

  function Rank(n: Name): (k: nat) {
    match n
    case AgentPrecompiles => 0
    case ExactCreateCode => 1
    case VrfEncoding => 2
    case SupplyHardening => 3
    case StorageRoot => 4
    case _ => 5
  }

  /** An optional field can be read off the front of a list that does not otherwise have its name. */
  lemma Peel(name: Name, a: Option<nat>, b: Option<nat>, x: seq<Field>, y: seq<Field>)
    requires Opt(name, a) + x == Opt(name, b) + y
    requires (forall f :: f in x ==> f.name != name) && (forall f :: f in y ==> f.name != name)
    ensures a == b && x == y
  {
    var s := Opt(name, a) + x;
    assert x != [] ==> x[0] in x;
    assert y != [] ==> y[0] in y;
    if a.Some? { assert s[0] == Field(name, Decimal(a.value)); }
    if b.Some? { assert s[0] == Field(name, Decimal(b.value)); }
    assert a.Some? == b.Some?;
    if a.Some? && b.Some? { DecimalInjective(a.value, b.value); }
    assert x == s[|Opt(name, a)|..] && y == s[|Opt(name, b)|..];
  }

  lemma HeightsInjective(i: Inputs, j: Inputs)
    requires Clean(i) && Clean(j) && HeightsFrom(i, 0) == HeightsFrom(j, 0)
    ensures i.agentPrecompilesHeight == j.agentPrecompilesHeight
    ensures i.exactCreateCodeHeight == j.exactCreateCodeHeight
    ensures i.vrfCanonicalEncodingHeight == j.vrfCanonicalEncodingHeight
    ensures i.supplyHardeningHeight == j.supplyHardeningHeight
    ensures i.storageRootHardeningHeight == j.storageRootHardeningHeight
    ensures Binding(i) == Binding(j)
  {
    hide Opt, Binding, KeyText, Clean;
    forall n: nat | n <= 5
      ensures forall f :: f in HeightsFrom(i, n) ==> Rank(f.name) >= n
      ensures forall f :: f in HeightsFrom(j, n) ==> Rank(f.name) >= n
    {
      HeightsOk(i, n);
      HeightsOk(j, n);
    }
    Peel(AgentPrecompiles, i.agentPrecompilesHeight, j.agentPrecompilesHeight, HeightsFrom(i, 1), HeightsFrom(j, 1));
    Peel(ExactCreateCode, i.exactCreateCodeHeight, j.exactCreateCodeHeight, HeightsFrom(i, 2), HeightsFrom(j, 2));
    Peel(VrfEncoding, i.vrfCanonicalEncodingHeight, j.vrfCanonicalEncodingHeight, HeightsFrom(i, 3), HeightsFrom(j, 3));
    Peel(SupplyHardening, i.supplyHardeningHeight, j.supplyHardeningHeight, HeightsFrom(i, 4), HeightsFrom(j, 4));
    Peel(StorageRoot, i.storageRootHardeningHeight, j.storageRootHardeningHeight, HeightsFrom(i, 5), HeightsFrom(j, 5));
  }

  lemma BindingInjective(i: Inputs, j: Inputs)
    requires Binding(i) == Binding(j)
    ensures i.genesisBinding == j.genesisBinding
  {
    if i.genesisBinding.Some? && j.genesisBinding.Some? {
      assert Binding(i)[0] == Binding(j)[0] && Binding(i)[1] == Binding(j)[1];
    }
    assert |Binding(i)| == |Binding(j)|;
  }

  lemma WordsInjective(i: Inputs, j: Inputs)
    requires BoolText(i.halo2Verifier) == BoolText(j.halo2Verifier)
    requires (if i.commdFoldVerify then "gated" else "absent") == (if j.commdFoldVerify then "gated" else "absent")
    ensures i.halo2Verifier == j.halo2Verifier && i.commdFoldVerify == j.commdFoldVerify
  {
    assert BoolText(i.halo2Verifier)[0] == BoolText(j.halo2Verifier)[0];
    assert "gated"[0] == 'g' && "absent"[0] == 'a';
  }

  lemma RequiredInjective(i: Inputs, j: Inputs)
    requires Clean(i) && Clean(j) && Required(i) == Required(j)
    ensures i.gitSha == j.gitSha && i.halo2Verifier == j.halo2Verifier && i.commdFoldVerify == j.commdFoldVerify
    ensures i.activationGated == j.activationGated && i.pbaHardeningHeight == j.pbaHardeningHeight
    ensures i.valueTransferHeight == j.valueTransferHeight && i.createNonceFixHeight == j.createNonceFixHeight
    ensures i.mergeDepthHeight == j.mergeDepthHeight && i.baseFee == j.baseFee
    ensures i.epoch == j.epoch && i.snapshotLag == j.snapshotLag
  {
    hide Decimal, Join, HeightText, BoolText, KeyText;
    var f, g := Required(i), Required(j);
    assert f[0] == g[0] && f[1] == g[1] && f[2] == g[2] && f[3] == g[3] && f[4] == g[4] && f[5] == g[5];
    assert f[6] == g[6] && f[7] == g[7] && f[8] == g[8] && f[9] == g[9] && f[10] == g[10];
    WordsInjective(i, j);
    JoinInjective(i.activationGated, j.activationGated);
    HeightInjective(i.pbaHardeningHeight, j.pbaHardeningHeight);
    DecimalInjective(i.valueTransferHeight, j.valueTransferHeight);
    DecimalInjective(i.createNonceFixHeight, j.createNonceFixHeight);
    DecimalInjective(i.mergeDepthHeight, j.mergeDepthHeight);
    DecimalInjective(i.baseFee, j.baseFee);
    DecimalInjective(i.epoch, j.epoch);
    DecimalInjective(i.snapshotLag, j.snapshotLag);
  }

  lemma TagPlain(i: Inputs)
    ensures '\n' !in Tag(i)
  {
    assert PlainText(V3) && PlainText(V4);
  }

  /** The pre-image is injective over clean inputs: equal text means equal inputs, whichever optional
      heights are set and whether or not a genesis is bound. */
  lemma PreimageInjective(i: Inputs, j: Inputs)
    requires Clean(i) && Clean(j) && Preimage(i) == Preimage(j)
    ensures i == j
  {
    hide Preimage, Tag, Fields, Body, Clean, Required, HeightsFrom, Binding;
    PreimageIsText(i);
    PreimageIsText(j);
    TagPlain(i);
    TagPlain(j);
    assert "\n" == ['\n'];
    FirstSplit(Tag(i), Body(Fields(i)), Tag(j), Body(Fields(j)), '\n');
    FieldsOk(i);
    FieldsOk(j);
    BodyInjective(Fields(i), Fields(j));
    FieldsSplit(i, j);
    RequiredInjective(i, j);
    HeightsInjective(i, j);
    BindingInjective(i, j);
  }

  lemma FieldsSplit(i: Inputs, j: Inputs)
    requires Fields(i) == Fields(j)
    ensures Required(i) == Required(j) && HeightsFrom(i, 0) == HeightsFrom(j, 0)
  {
    hide HeightsFrom, Decimal, Join, HeightText, BoolText, KeyText;
    assert Fields(i)[..11] == Required(i) && Fields(j)[..11] == Required(j);
    assert Fields(i)[11..] == HeightsFrom(i, 0) && Fields(j)[11..] == HeightsFrom(j, 0);
  }

  /** Clean rule names are needed: a bar inside a name, or an empty name, prints like another list. */
  lemma UncleanNamesCollide(i: Inputs)
    ensures Preimage(i.(activationGated := ["a|b"])) == Preimage(i.(activationGated := ["a", "b"]))
    ensures Preimage(i.(activationGated := [])) == Preimage(i.(activationGated := [""]))
  {
    hide Line, OptionalLine, Decimal, HeightText, BoolText, KeyText, StripPrefix;
    assert Join(["a", "b"]) == "a" + "|" + Join(["b"]) && Join(["b"]) == "b";
    assert Join(["a|b"]) == "a|b" == Join(["a", "b"]);
    assert Join([]) == Join([""]);
  }
}
