/**
 * The source generator for structs marked with the InfoProxy attribute. For
 * every struct whose attribute carries a readable `uint` id it renders a static
 * `Instance()` getter that fetches the proxy from the info module by that id,
 * and across all such structs it renders one `Get<Name>()` member of the info
 * module per struct.
 *
 * The writer the renderers use is the `LineWriter` of the Writer module.
 */
module InfoProxyGetterGenerator {
  import Text
  import opened Wrappers
  import opened Writer

  /** A C# `uint`. */
  type UInt32 = x: int | 0 <= x < 0x1_0000_0000

  /** The two parts of a struct's description that this generator uses. */
  datatype StructInfo = StructInfo(name: string, fullyQualifiedMetadataName: string)

  datatype InfoProxyGetterInfo = InfoProxyGetterInfo(structInfo: StructInfo, infoProxyId: UInt32)

  /**
   * What the extraction sees of one attributed struct: its description when
   * the target symbol is a named type, and the attribute's first constructor
   * argument when it can be read as a `uint`.
   */
  datatype AttributeTarget = AttributeTarget(namedType: Option<StructInfo>, idArgument: Option<UInt32>)

  // ---------------------------------------------------------------------------
  // Extraction
  // ---------------------------------------------------------------------------

  /** The extraction lambda: no info (null) unless both the struct and its id can be read. */
  function GetInfo(target: AttributeTarget): (r: Option<InfoProxyGetterInfo>)
    ensures r.Some? <==> target.namedType.Some? && target.idArgument.Some?
    ensures r.Some? ==> r.value.structInfo == target.namedType.value && r.value.infoProxyId == target.idArgument.value
  {
    match target.namedType
    case None => None
    case Some(structInfo) =>
      match target.idArgument
      case None => None
      case Some(infoProxyId) => Some(InfoProxyGetterInfo(structInfo, infoProxyId))
  }

  /** The extraction followed by the filter that drops the nulls, keeping the order. */
  function CollectInfos(targets: seq<AttributeTarget>): (infos: seq<InfoProxyGetterInfo>)
    ensures |infos| <= |targets|
    decreases |targets|
  {
    if |targets| == 0 then [] else Kept(targets[0]) + CollectInfos(targets[1..])
  }

  /** What the filter keeps of one target: its info, or nothing when the extraction gave null. */
  function Kept(target: AttributeTarget): (kept: seq<InfoProxyGetterInfo>)
    ensures |kept| <= 1
    ensures kept == [] <==> GetInfo(target).None?
    ensures |kept| == 1 ==> Some(kept[0]) == GetInfo(target)
  {
    match GetInfo(target)
    case Some(info) => [info]
    case None => []
  }

  /** The infos of earlier targets come before those of later ones. */
  lemma {:induction false} CollectInfosAppend(xs: seq<AttributeTarget>, ys: seq<AttributeTarget>)
    ensures CollectInfos(xs + ys) == CollectInfos(xs) + CollectInfos(ys)
    decreases |xs|
  {
    if |xs| > 0 {
      assert (xs + ys)[0] == xs[0] && (xs + ys)[1..] == xs[1..] + ys;
      CollectInfosAppend(xs[1..], ys);
      calc {
        CollectInfos(xs + ys);
        Kept(xs[0]) + CollectInfos(xs[1..] + ys);
        Kept(xs[0]) + (CollectInfos(xs[1..]) + CollectInfos(ys));
      }
    } else {
      assert xs + ys == ys;
    }
  }

  /** An info is collected exactly when some target yields it: the filter drops only the nulls. */
  lemma {:induction false} CollectInfosMembers(targets: seq<AttributeTarget>, info: InfoProxyGetterInfo)
    ensures info in CollectInfos(targets) <==> exists k :: 0 <= k < |targets| && GetInfo(targets[k]) == Some(info)
    decreases |targets|
  {
    if |targets| > 0 {
      CollectInfosMembers(targets[1..], info);
      if info in CollectInfos(targets[1..]) {
        var k :| 0 <= k < |targets[1..]| && GetInfo(targets[1..][k]) == Some(info);
        assert targets[k + 1] == targets[1..][k];
      }
      if exists k :: 0 <= k < |targets| && GetInfo(targets[k]) == Some(info) {
        var k :| 0 <= k < |targets| && GetInfo(targets[k]) == Some(info);
        if k > 0 {
          assert targets[1..][k - 1] == targets[k];
        }
      }
    }
  }

  /** When every target is readable nothing is dropped: one info per target, in order. */
  lemma {:induction false} CollectInfosAllReadable(targets: seq<AttributeTarget>)
    requires forall k :: 0 <= k < |targets| ==> targets[k].namedType.Some? && targets[k].idArgument.Some?
    ensures |CollectInfos(targets)| == |targets|
    ensures forall k :: 0 <= k < |targets| ==> Some(CollectInfos(targets)[k]) == GetInfo(targets[k])
    decreases |targets|
  {
    if |targets| > 0 {
      var tail := targets[1..];
      assert forall k :: 0 <= k < |tail| ==> tail[k] == targets[k + 1];
      CollectInfosAllReadable(tail);
      var infos := CollectInfos(targets);
      assert Kept(targets[0]) == [GetInfo(targets[0]).value];
      forall k | 0 <= k < |targets| ensures Some(infos[k]) == GetInfo(targets[k]) {
        if k > 0 {
          assert infos[k] == CollectInfos(tail)[k - 1];
        }
      }
    }
  }

  // ---------------------------------------------------------------------------
  // The per-struct `Instance()` getter
  // ---------------------------------------------------------------------------

  /** The name of the file that holds a struct's `Instance()` getter. */
  function InstanceGetterFileName(info: InfoProxyGetterInfo): string
  {
    info.structInfo.fullyQualifiedMetadataName + ".InstanceGetter.g.cs"
  }

  /** Distinct metadata names give distinct file names. */
  lemma InstanceGetterFileNameInjective(a: InfoProxyGetterInfo, b: InfoProxyGetterInfo)
    requires InstanceGetterFileName(a) == InstanceGetterFileName(b)
    ensures a.structInfo.fullyQualifiedMetadataName == b.structInfo.fullyQualifiedMetadataName
  {
    var fa, fb := InstanceGetterFileName(a), InstanceGetterFileName(b);
    assert a.structInfo.fullyQualifiedMetadataName == fa[..|fa| - 20];
    assert b.structInfo.fullyQualifiedMetadataName == fb[..|fb| - 20];
  }

  const NullGuard: string := "return infoModule == null ? null : ("

  /** The getter's return: null when there is no info module, else the proxy with this info's id. */
  function InstanceReturnLine(info: InfoProxyGetterInfo): string
  {
    InstanceReturnHead(info) + Text.IntToDecimal(info.infoProxyId) + ");"
  }

  /** The return statement up to the id: the null guard, then the cast of the looked-up proxy. */
  function InstanceReturnHead(info: InfoProxyGetterInfo): string
  {
    NullGuard + info.structInfo.name + "*)infoModule->GetInfoProxyById((InfoProxyId)"
  }

  /** The return statement returns null when the info module is null. */
  lemma InstanceReturnLineGuard(info: InfoProxyGetterInfo)
    ensures |NullGuard| <= |InstanceReturnLine(info)| && InstanceReturnLine(info)[..|NullGuard|] == NullGuard
  {
    var rest := info.structInfo.name + "*)infoModule->GetInfoProxyById((InfoProxyId)"
      + Text.IntToDecimal(info.infoProxyId) + ");";
    assert InstanceReturnLine(info) == NullGuard + rest;
  }

  /** The proxy the return statement looks up is the one with this info's own id. */
  lemma InstanceReturnLineId(info: InfoProxyGetterInfo)
    ensures Text.ClosingIntegerArgument(InstanceReturnLine(info)) == Some(info.infoProxyId as int)
  {
    var p := InstanceReturnHead(info);
    assert p[|p| - 1] == ')';
    Text.ClosingIntegerArgumentOf(p, info.infoProxyId);
  }

  /** What `RenderInstanceGetter` writes after `RenderStart`, with depths relative to where that leaves off. */
  function InstanceGetterLines(info: InfoProxyGetterInfo): seq<Line>
  {
    [Line(0, "public static " + info.structInfo.name + "* Instance()"),
     Line(0, "{"),
     Line(1, "var infoModule = InfoModule.Instance();"),
     Line(1, InstanceReturnLine(info)),
     Line(0, "}")]
  }

  /** `RenderInstanceGetter`, between `RenderStart` and `RenderEnd`. */
  method RenderInstanceGetter(info: InfoProxyGetterInfo) returns (lines: seq<Line>)
    ensures lines == InstanceGetterLines(info)
  {
    var writer := new LineWriter();
    writer.AppendLine("public static " + info.structInfo.name + "* Instance()");
    writer.OpenBlock();
    writer.AppendLine("var infoModule = InfoModule.Instance();");
    writer.AppendLine(InstanceReturnLine(info));
    writer.CloseBlock();
    lines := writer.lines;
  }

  /**
   * The getter's body, one level deeper than its braces, first fetches the
   * info module and then returns the proxy (see `InstanceReturnLineGuard`
   * and `InstanceReturnLineId`).
   */
  lemma InstanceGetterBody(info: InfoProxyGetterInfo)
    ensures var lines := InstanceGetterLines(info);
      && |lines| == 5
      && lines[0] == Line(0, "public static " + info.structInfo.name + "* Instance()")
      && lines[1] == Line(0, "{") && lines[4] == Line(0, "}")
      && lines[2] == Line(1, "var infoModule = InfoModule.Instance();")
      && lines[3] == Line(1, InstanceReturnLine(info))
  {
  }

  // ---------------------------------------------------------------------------
  // The info module's getters
  // ---------------------------------------------------------------------------

  /** `public <metadata name>* Get<Name>() => (<metadata name>*)GetInfoProxyById((InfoProxyId)<id>);` */
  function ModuleGetterLine(info: InfoProxyGetterInfo): string
  {
    ModuleGetterHead(info) + Text.IntToDecimal(info.infoProxyId) + ");"
  }

  /** The declaration part of a getter: its return type and its name, `Get` and the struct's name. */
  function ModuleGetterSignature(info: InfoProxyGetterInfo): string
  {
    "public " + info.structInfo.fullyQualifiedMetadataName + "* Get" + info.structInfo.name + "()"
  }

  /** A getter up to the id. */
  function ModuleGetterHead(info: InfoProxyGetterInfo): string
  {
    ModuleGetterSignature(info) + " => (" + info.structInfo.fullyQualifiedMetadataName
    + "*)GetInfoProxyById((InfoProxyId)"
  }

  /** A getter is named `Get` and the struct's name, and returns a pointer to the struct. */
  lemma ModuleGetterLineName(info: InfoProxyGetterInfo)
    ensures var line, signature := ModuleGetterLine(info), ModuleGetterSignature(info);
      |signature| <= |line| && line[..|signature|] == signature
  {
    var rest := " => (" + info.structInfo.fullyQualifiedMetadataName + "*)GetInfoProxyById((InfoProxyId)"
      + Text.IntToDecimal(info.infoProxyId) + ");";
    assert ModuleGetterLine(info) == ModuleGetterSignature(info) + rest;
  }

  /** A getter looks up the proxy with its own info's id. */
  lemma ModuleGetterLineId(info: InfoProxyGetterInfo)
    ensures Text.ClosingIntegerArgument(ModuleGetterLine(info)) == Some(info.infoProxyId as int)
  {
    var p := ModuleGetterHead(info);
    assert p[|p| - 1] == ')';
    Text.ClosingIntegerArgumentOf(p, info.infoProxyId);
  }

  /** The getters, one per info, in order. */
  function ModuleGetterTexts(infos: seq<InfoProxyGetterInfo>): (texts: seq<string>)
    ensures |texts| == |infos|
  {
    seq(|infos|, k requires 0 <= k < |infos| => ModuleGetterLine(infos[k]))
  }

  const ModuleGettersHead: seq<Line> := [
    Line(0, "// <auto-generated>"),
    Line(0, ""),
    Line(0, "namespace FFXIVClientStructs.FFXIV.Client.UI.Info;"),
    Line(0, ""),
    Line(0, "public unsafe partial struct InfoModule"),
    Line(0, "{")
  ]

  /** The info module's getters file. */
  function InfoModuleGetterLines(infos: seq<InfoProxyGetterInfo>): seq<Line>
  {
    ModuleGettersHead + AtDepth(1, ModuleGetterTexts(infos)) + [Line(0, "}")]
  }

  /** `RenderInfoModuleGetters`. */
  method RenderInfoModuleGetters(infoProxyGetterInfos: seq<InfoProxyGetterInfo>) returns (lines: seq<Line>)
    ensures lines == InfoModuleGetterLines(infoProxyGetterInfos)
  {
    var writer := new LineWriter();
    writer.AppendLine("// <auto-generated>");
    writer.AppendLine("");
    writer.AppendLine("namespace FFXIVClientStructs.FFXIV.Client.UI.Info;");
    writer.AppendLine("");
    writer.AppendLine("public unsafe partial struct InfoModule");
    writer.OpenBlock();
    assert writer.lines == ModuleGettersHead;
    ghost var texts := ModuleGetterTexts(infoProxyGetterInfos);
    var k := 0;
    while k < |infoProxyGetterInfos|
      invariant 0 <= k <= |infoProxyGetterInfos|
      invariant writer.depth == 1
      invariant writer.lines == ModuleGettersHead + AtDepth(1, texts[..k])
    {
      AtDepthStep(1, texts, k);
      writer.AppendLine(ModuleGetterLine(infoProxyGetterInfos[k]));
      k := k + 1;
    }
    assert texts[..k] == texts;
    writer.CloseBlock();
    lines := writer.lines;
  }

  /**
   * The getters file: the header and the namespace come first, then inside
   * the `InfoModule` block exactly one getter per info, in the infos' order,
   * then the closing brace.
   */
  lemma InfoModuleGetterLayout(infos: seq<InfoProxyGetterInfo>)
    ensures var lines, n := InfoModuleGetterLines(infos), |infos|;
      && |lines| == 7 + n
      && lines[0] == Line(0, "// <auto-generated>")
      && lines[2] == Line(0, "namespace FFXIVClientStructs.FFXIV.Client.UI.Info;")
      && lines[5] == Line(0, "{")
      && (forall k :: 6 <= k < 6 + n ==> lines[k] == Line(1, ModuleGetterTexts(infos)[k - 6]))
      && lines[6 + n] == Line(0, "}")
  {
    var texts := ModuleGetterTexts(infos);
    var body := AtDepth(1, texts);
    ConcatParts(ModuleGettersHead, body, [Line(0, "}")]);
    var lines := InfoModuleGetterLines(infos);
    assert lines == ModuleGettersHead + body + [Line(0, "}")];
    forall k | 6 <= k < 6 + |infos|
      ensures lines[k] == Line(1, texts[k - 6])
    {
      assert lines[k] == body[k - 6];
    }
  }

  /**
   * Getter k is the getter of info k: named after it and reading back its
   * own id, so no getter embeds another info's id.
   */
  lemma ModuleGetterOfInfo(infos: seq<InfoProxyGetterInfo>, k: nat)
    requires k < |infos|
    ensures ModuleGetterTexts(infos)[k] == ModuleGetterLine(infos[k])
    ensures Text.ClosingIntegerArgument(ModuleGetterTexts(infos)[k]) == Some(infos[k].infoProxyId as int)
  {
    ModuleGetterLineId(infos[k]);
  }
}
