/** The command line of nfd-master, and the proof that it loses nothing of the settings it carries. */
module MasterArgs {
  import opened Types
  import opened Text

  const DEFAULT_SERVICE_PORT := 12000

  const PORT := "--port="
  const EXTRA_LABEL_NS := "--extra-label-ns="
  const RESOURCE_LABELS := "--resource-labels="
  const LABEL_WHITELIST := "--label-whitelist="
  const ENABLE_TAINTS := "--enable-taints"

  function Port(spec: Spec): int {
    if spec.operand.servicePort != 0 then spec.operand.servicePort else DEFAULT_SERVICE_PORT
  }

  /** The list with one more argument, if the option is given. */
  function With(args: seq<string>, given: bool, arg: string): seq<string> {
    if given then args + [arg] else args
  }

  function Args(spec: Spec): seq<string> {
    var port := [PORT + Decimal(Port(spec))];
    var ns := With(port, |spec.extraLabelNs| != 0, EXTRA_LABEL_NS + Join(spec.extraLabelNs));
    var labels := With(ns, |spec.resourceLabels| != 0, RESOURCE_LABELS + Join(spec.resourceLabels));
    var white := With(labels, !IsBlank(spec.labelWhiteList), LABEL_WHITELIST + spec.labelWhiteList);
    With(white, spec.enableTaints, ENABLE_TAINTS)
  }

  /** The argument list in the source's form: a slice that grows option by option. */
  method GetArgs(spec: Spec) returns (args: seq<string>)
    ensures args == Args(spec)
  {
    var port := DEFAULT_SERVICE_PORT;
    if spec.operand.servicePort != 0 {
      port := spec.operand.servicePort;
    }
    args := [PORT + Decimal(port)];
    if |spec.extraLabelNs| != 0 {
      args := args + [EXTRA_LABEL_NS + Join(spec.extraLabelNs)];
    }
    if |spec.resourceLabels| != 0 {
      args := args + [RESOURCE_LABELS + Join(spec.resourceLabels)];
    }
    if !IsBlank(spec.labelWhiteList) {
      args := args + [LABEL_WHITELIST + spec.labelWhiteList];
    }
    if spec.enableTaints {
      args := args + [ENABLE_TAINTS];
    }
  }

  /** What the command line is meant to convey. */
  datatype Settings = Settings(
    port: int,
    extraLabelNs: seq<string>,
    resourceLabels: seq<string>,
    labelWhiteList: Option<string>,
    enableTaints: bool)

  /** Port 0 stands for 12000, and a whitelist without a visible character for none. */
  function Normalised(spec: Spec): Settings {
    Settings(if spec.operand.servicePort == 0 then 12000 else spec.operand.servicePort,
             spec.extraLabelNs, spec.resourceLabels,
             if exists i :: 0 <= i < |spec.labelWhiteList| && Visible(spec.labelWhiteList[i])
             then Some(spec.labelWhiteList) else None,
             spec.enableTaints)
  }

  predicate Carries(args: seq<string>, prefix: string) {
    args != [] && prefix <= args[0]
  }

  // The options as nfd-master knows them.
  const KNOWN_PORT := "--port="
  const KNOWN_EXTRA_LABEL_NS := "--extra-label-ns="
  const KNOWN_RESOURCE_LABELS := "--resource-labels="
  const KNOWN_LABEL_WHITELIST := "--label-whitelist="
  const KNOWN_ENABLE_TAINTS := "--enable-taints"

  lemma NamesAreKnown()
    ensures PORT == KNOWN_PORT && EXTRA_LABEL_NS == KNOWN_EXTRA_LABEL_NS && RESOURCE_LABELS == KNOWN_RESOURCE_LABELS
    ensures LABEL_WHITELIST == KNOWN_LABEL_WHITELIST && ENABLE_TAINTS == KNOWN_ENABLE_TAINTS
  {
  }

  /** Reads a command line back as nfd-master does, option by option in the order in which they are written. */
  function Decode(args: seq<string>): Settings
    requires Carries(args, KNOWN_PORT)
  {
    var port := ParseDecimal(args[0][|KNOWN_PORT|..]);
    var a := args[1..];
    var ns := if Carries(a, KNOWN_EXTRA_LABEL_NS) then Split(a[0][|KNOWN_EXTRA_LABEL_NS|..]) else [];
    var b := if Carries(a, KNOWN_EXTRA_LABEL_NS) then a[1..] else a;
    var labels := if Carries(b, KNOWN_RESOURCE_LABELS) then Split(b[0][|KNOWN_RESOURCE_LABELS|..]) else [];
    var c := if Carries(b, KNOWN_RESOURCE_LABELS) then b[1..] else b;
    var white := if Carries(c, KNOWN_LABEL_WHITELIST) then Some(c[0][|KNOWN_LABEL_WHITELIST|..]) else None;
    var d := if Carries(c, KNOWN_LABEL_WHITELIST) then c[1..] else c;
    Settings(port, ns, labels, white, d == [KNOWN_ENABLE_TAINTS])
  }

  /** The arguments from each option on. */
  function FromTaints(spec: Spec): seq<string> {
    if spec.enableTaints then [ENABLE_TAINTS] else []
  }

  function FromWhiteList(spec: Spec): seq<string> {
    (if !IsBlank(spec.labelWhiteList) then [LABEL_WHITELIST + spec.labelWhiteList] else []) + FromTaints(spec)
  }

  function FromResources(spec: Spec): seq<string> {
    (if |spec.resourceLabels| != 0 then [RESOURCE_LABELS + Join(spec.resourceLabels)] else []) + FromWhiteList(spec)
  }

  function FromLabelNs(spec: Spec): seq<string> {
    (if |spec.extraLabelNs| != 0 then [EXTRA_LABEL_NS + Join(spec.extraLabelNs)] else []) + FromResources(spec)
  }

  lemma WithIsAppend(args: seq<string>, given: bool, arg: string)
    ensures With(args, given, arg) == args + (if given then [arg] else [])
  {
  }

  lemma ArgsInOrder(spec: Spec)
    ensures Args(spec) == [PORT + Decimal(Port(spec))] + FromLabelNs(spec)
  {
    var port := [PORT + Decimal(Port(spec))];
    var ns := With(port, |spec.extraLabelNs| != 0, EXTRA_LABEL_NS + Join(spec.extraLabelNs));
    var labels := With(ns, |spec.resourceLabels| != 0, RESOURCE_LABELS + Join(spec.resourceLabels));
    var white := With(labels, !IsBlank(spec.labelWhiteList), LABEL_WHITELIST + spec.labelWhiteList);
    WithIsAppend(port, |spec.extraLabelNs| != 0, EXTRA_LABEL_NS + Join(spec.extraLabelNs));
    WithIsAppend(ns, |spec.resourceLabels| != 0, RESOURCE_LABELS + Join(spec.resourceLabels));
    WithIsAppend(labels, !IsBlank(spec.labelWhiteList), LABEL_WHITELIST + spec.labelWhiteList);
    WithIsAppend(white, spec.enableTaints, ENABLE_TAINTS);
  }

  lemma OptionReads(prefix: string, text: string, given: bool, args: seq<string>, rest: seq<string>)
    requires args == (if given then [prefix + text] else []) + rest
    requires !given ==> !Carries(rest, prefix)
    ensures Carries(args, prefix) == given
    ensures given ==> args[0][|prefix|..] == text && args[1..] == rest
    ensures !given ==> args == rest
  {
  }

  /** No option's text begins with that of another. */
  lemma PrefixesDiffer()
    ensures EXTRA_LABEL_NS[2..4] == "ex" && RESOURCE_LABELS[2..4] == "re"
    ensures LABEL_WHITELIST[2..4] == "la" && ENABLE_TAINTS[2..4] == "en"
  {
  }

  lemma OthersDoNotCarry(arg: string, rest: seq<string>, prefix: string, other: string)
    requires |prefix| >= 4 && |other| >= 4 && other <= arg && prefix[2..4] != other[2..4]
    ensures !Carries([arg] + rest, prefix)
  {
    assert arg[2..4] == other[2..4];
    assert |prefix| <= |arg| ==> arg[..|prefix|][2..4] == arg[2..4];
  }

  lemma TaintsRead(spec: Spec)
    ensures !Carries(FromTaints(spec), LABEL_WHITELIST)
    ensures !Carries(FromTaints(spec), RESOURCE_LABELS) && !Carries(FromTaints(spec), EXTRA_LABEL_NS)
  {
    PrefixesDiffer();
    OthersDoNotCarry(ENABLE_TAINTS, [], LABEL_WHITELIST, ENABLE_TAINTS);
    OthersDoNotCarry(ENABLE_TAINTS, [], RESOURCE_LABELS, ENABLE_TAINTS);
    OthersDoNotCarry(ENABLE_TAINTS, [], EXTRA_LABEL_NS, ENABLE_TAINTS);
    assert [ENABLE_TAINTS] + [] == [ENABLE_TAINTS];
  }

  lemma WhiteListReads(spec: Spec)
    ensures var args, given := FromWhiteList(spec), !IsBlank(spec.labelWhiteList);
      && Carries(args, LABEL_WHITELIST) == given
      && (if given then args[0][|LABEL_WHITELIST|..] == spec.labelWhiteList && args[1..] == FromTaints(spec)
          else args == FromTaints(spec))
      && !Carries(args, RESOURCE_LABELS) && !Carries(args, EXTRA_LABEL_NS)
  {
    var arg, rest := LABEL_WHITELIST + spec.labelWhiteList, FromTaints(spec);
    TaintsRead(spec);
    OptionReads(LABEL_WHITELIST, spec.labelWhiteList, !IsBlank(spec.labelWhiteList), FromWhiteList(spec), rest);
    PrefixesDiffer();
    OthersDoNotCarry(arg, rest, RESOURCE_LABELS, LABEL_WHITELIST);
    OthersDoNotCarry(arg, rest, EXTRA_LABEL_NS, LABEL_WHITELIST);
  }

  lemma ResourcesRead(spec: Spec)
    ensures var args, given := FromResources(spec), |spec.resourceLabels| != 0;
      && Carries(args, RESOURCE_LABELS) == given
      && (if given then args[0][|RESOURCE_LABELS|..] == Join(spec.resourceLabels) && args[1..] == FromWhiteList(spec)
          else args == FromWhiteList(spec))
      && !Carries(args, EXTRA_LABEL_NS)
  {
    var arg, rest := RESOURCE_LABELS + Join(spec.resourceLabels), FromWhiteList(spec);
    WhiteListReads(spec);
    OptionReads(RESOURCE_LABELS, Join(spec.resourceLabels), |spec.resourceLabels| != 0, FromResources(spec), rest);
    PrefixesDiffer();
    OthersDoNotCarry(arg, rest, EXTRA_LABEL_NS, RESOURCE_LABELS);
  }

  lemma LabelNsRead(spec: Spec)
    ensures var args, given := FromLabelNs(spec), |spec.extraLabelNs| != 0;
      && Carries(args, EXTRA_LABEL_NS) == given
      && (if given then args[0][|EXTRA_LABEL_NS|..] == Join(spec.extraLabelNs) && args[1..] == FromResources(spec)
          else args == FromResources(spec))
  {
    ResourcesRead(spec);
    OptionReads(EXTRA_LABEL_NS, Join(spec.extraLabelNs), |spec.extraLabelNs| != 0,
                FromLabelNs(spec), FromResources(spec));
  }

  lemma PortReads(spec: Spec)
    ensures var args := Args(spec);
      && Carries(args, PORT) && ParseDecimal(args[0][|PORT|..]) == Port(spec) && args[1..] == FromLabelNs(spec)
  {
    ArgsInOrder(spec);
    DecimalRoundTrip(Port(spec));
    assert (PORT + Decimal(Port(spec)))[|PORT|..] == Decimal(Port(spec));
    assert ([PORT + Decimal(Port(spec))] + FromLabelNs(spec))[1..] == FromLabelNs(spec);
  }

  /** What decoding gives back for any spec: the lists as a comma-splitting reader sees them. */
  lemma DecodeArgs(spec: Spec)
    ensures Carries(Args(spec), KNOWN_PORT)
    ensures Decode(Args(spec)) == Normalised(spec).(
              extraLabelNs := if spec.extraLabelNs == [] then [] else Split(Join(spec.extraLabelNs)),
              resourceLabels := if spec.resourceLabels == [] then [] else Split(Join(spec.resourceLabels)))
  {
    NamesAreKnown();
    BlankExactly(spec.labelWhiteList);
    PortReads(spec);
    LabelNsRead(spec);
    ResourcesRead(spec);
    WhiteListReads(spec);
  }

  /** The round trip holds for label lists of any length, exactly when no label contains a comma. */
  lemma RoundTripExactly(spec: Spec)
    ensures Carries(Args(spec), KNOWN_PORT)
    ensures Decode(Args(spec)) == Normalised(spec)
            <==> AllCommaFree(spec.extraLabelNs) && AllCommaFree(spec.resourceLabels)
  {
    DecodeArgs(spec);
    if spec.extraLabelNs != [] && AllCommaFree(spec.extraLabelNs) { SplitJoin(spec.extraLabelNs); }
    if spec.resourceLabels != [] && AllCommaFree(spec.resourceLabels) { SplitJoin(spec.resourceLabels); }
  }

  /** Hence two such specs run the same command line only if their normalised settings agree. */
  lemma ArgsAreInjective(s: Spec, t: Spec)
    requires AllCommaFree(s.extraLabelNs) && AllCommaFree(s.resourceLabels)
    requires AllCommaFree(t.extraLabelNs) && AllCommaFree(t.resourceLabels)
    ensures Args(s) == Args(t) <==> Normalised(s) == Normalised(t)
  {
    RoundTripExactly(s);
    RoundTripExactly(t);
    if Normalised(s) == Normalised(t) { SameSettings(s, t); }
  }

  lemma SameSettings(s: Spec, t: Spec)
    requires Normalised(s) == Normalised(t)
    ensures Args(s) == Args(t)
  {
    BlankExactly(s.labelWhiteList);
    BlankExactly(t.labelWhiteList);
  }

  /** A comma inside a label is lost: one label "a,b" and two labels "a" and "b" run the same command. */
  lemma CommaIsLost(spec: Spec)
    ensures var one := spec.(extraLabelNs := ["a,b"]);
            var two := spec.(extraLabelNs := ["a", "b"]);
            Args(one) == Args(two) && Normalised(one) != Normalised(two)
  {
    assert ["a", "b"][1..] == ["b"];
    assert Join(["b"]) == "b";
    assert Join(["a", "b"]) == "a" + "," + "b";
    assert "a,b" == "a" + "," + "b";
    assert Join(["a,b"]) == "a,b";
  }
}
