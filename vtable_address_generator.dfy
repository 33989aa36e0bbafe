/**
 * The source generator for structs marked with a VTable-address attribute.
 * For each struct it combines the validated pieces of the attribute into a
 * `StaticAddressInfo`, renders a per-struct source file (an `Addresses`
 * class with one address declaration per info and a `StaticAddressPointers`
 * class with one pointer property per info), and renders one resolver file
 * that registers every successfully validated struct's address.
 *
 * The builder the renderers share is the `LineWriter` of the Writer module.
 */
module VTableAddressGenerator {
  import Text
  import opened Wrappers
  import opened Writer

  // ---------------------------------------------------------------------------
  // Validation
  // ---------------------------------------------------------------------------

  /** A diagnostic the generator reports instead of output; its contents are opaque here. */
  datatype DiagnosticInfo = DiagnosticInfo(descriptor: string, arguments: seq<string>)

  /** A value that passed validation, or the diagnostics that explain why it did not. */
  datatype Validation<+T> = Succ(value: T) | Fail(errors: seq<DiagnosticInfo>)

  /** The diagnostics a validation carries: none for a success. */
  function Errors<T>(v: Validation<T>): seq<DiagnosticInfo>
  {
    match v
    case Succ(_) => []
    case Fail(e) => e
  }

  /** Sequential composition: the second step runs only when the first succeeded. */
  function Bind<T, U>(v: Validation<T>, f: T -> Validation<U>): Validation<U>
  {
    match v
    case Succ(x) => f(x)
    case Fail(e) => Fail(e)
  }

  /** Applicative combination of four validations: every failure is collected, in order. */
  function Apply4<A, B, C, D, R>(a: Validation<A>, b: Validation<B>, c: Validation<C>, d: Validation<D>,
                                 f: (A, B, C, D) -> R): Validation<R>
  {
    if a.Succ? && b.Succ? && c.Succ? && d.Succ? then Succ(f(a.value, b.value, c.value, d.value))
    else Fail(Errors(a) + Errors(b) + Errors(c) + Errors(d))
  }

  // ---------------------------------------------------------------------------
  // Records
  // ---------------------------------------------------------------------------

  /** A C# `int`. */
  type Int32 = x: int | -0x8000_0000 <= x < 0x8000_0000

  /** Where a struct is declared: its namespace, the types it is nested in (outermost first), its name. */
  datatype StructInfo = StructInfo(namespace: string, hierarchy: seq<string>, name: string)

  /**
   * A validated signature, with the byte-array and mask-array literals derived
   * from it (their derivation is not part of this model; they are kept as text).
   */
  datatype SignatureInfo = SignatureInfo(signature: string, byteArrayString: string, maskArrayString: string)

  datatype StaticAddressInfo = StaticAddressInfo(structInfo: StructInfo, signatureInfo: SignatureInfo,
                                                 offset: Int32, isPointer: bool)
  {
    /** Appends the address declaration of this info to the builder. */
    method RenderAddress(builder: LineWriter, structInfo: StructInfo)
      modifies builder
      ensures builder.lines == old(builder.lines) + [Line(old(builder.depth), AddressLine(this, structInfo))]
      ensures builder.depth == old(builder.depth)
    {
      builder.AppendLine(AddressLine(this, structInfo));
    }

    /** Appends the pointer property of this info to the builder. */
    method RenderPointer(builder: LineWriter, structInfo: StructInfo)
      modifies builder
      ensures builder.lines == old(builder.lines) + [Line(old(builder.depth), PointerLine(structInfo))]
      ensures builder.depth == old(builder.depth)
    {
      builder.AppendLine(PointerLine(structInfo));
    }

    /** Appends the registration of the struct's address with the resolver to the builder. */
    method RenderAddToResolver(builder: LineWriter, structInfo: StructInfo)
      modifies builder
      ensures builder.lines == old(builder.lines) + [Line(old(builder.depth), RegistrationLine(structInfo))]
      ensures builder.depth == old(builder.depth)
    {
      builder.AppendLine(RegistrationLine(structInfo));
    }
  }

  /**
   * `StaticAddressInfo.GetFromRoslyn`, from the point where the pieces are
   * read: the struct info, the signature argument with the check that
   * validates it, the offset argument and the is-pointer argument.
   */
  function GetFromRoslyn(validStructInfo: Validation<StructInfo>, signatureArgument: Validation<string>,
                         validateSignature: string -> Validation<SignatureInfo>,
                         validOffset: Validation<Int32>, validIsPointer: Validation<bool>)
    : (r: Validation<StaticAddressInfo>)
    ensures r.Succ? <==>
      && validStructInfo.Succ? && signatureArgument.Succ? && validateSignature(signatureArgument.value).Succ?
      && validOffset.Succ? && validIsPointer.Succ?
    ensures r.Succ? ==> r.value == StaticAddressInfo(validStructInfo.value,
                                                     validateSignature(signatureArgument.value).value,
                                                     validOffset.value, validIsPointer.value)
    ensures r.Fail? ==>
              r.errors == Errors(validStructInfo)
                          + (if signatureArgument.Succ? then Errors(validateSignature(signatureArgument.value))
                             else signatureArgument.errors)
                          + Errors(validOffset) + Errors(validIsPointer)
  {
    Apply4(validStructInfo, Bind(signatureArgument, validateSignature), validOffset, validIsPointer,
           (si, sig, offset, isPointer) => StaticAddressInfo(si, sig, offset, isPointer))
  }

  /** A struct together with all its static address infos. */
  datatype StructWithStaticAddressInfos = StructWithStaticAddressInfos(structInfo: StructInfo,
                                                                       staticAddressInfos: seq<StaticAddressInfo>)
  {
    /** The text of the per-struct file, between what `RenderStart` and `RenderEnd` write. */
    method RenderSource() returns (lines: seq<Line>)
      ensures lines == SourceLines(this)
    {
      var builder := new LineWriter();
      RenderAddressesClass(builder);
      RenderVTableStruct(builder);
      RenderPointersClass(builder);
      lines := builder.lines;
    }

    /** The `Addresses` class and the blank line after it. */
    method RenderAddressesClass(builder: LineWriter)
      requires builder.lines == [] && builder.depth == 0
      modifies builder
      ensures builder.lines == AddressesBlock(this) && builder.depth == 0
    {
      builder.AppendLine("public static partial class Addresses");
      builder.OpenBlock();
      assert builder.lines == AddressesHead();
      RenderAddresses(builder);
      builder.CloseBlock();
      builder.AppendLine("");
    }

    /** The empty partial VTable struct, and the opening of the `StaticAddressPointers` class. */
    method RenderVTableStruct(builder: LineWriter)
      requires builder.depth == 0
      modifies builder
      ensures builder.lines == old(builder.lines) + VTableStructLines(this) + [Line(0, "{")]
      ensures builder.depth == 1
    {
      builder.AppendLine("public partial struct " + structInfo.name + "VTable");
      builder.AppendLine("{");
      builder.AppendLine("}");
      builder.AppendLine("");
      builder.AppendLine("public unsafe static partial class StaticAddressPointers");
      builder.OpenBlock();
    }

    /** The pointer properties, the close of their class, and the `StaticVTable` property. */
    method RenderPointersClass(builder: LineWriter)
      requires builder.depth == 1
      modifies builder
      ensures builder.lines == old(builder.lines) + AtDepth(1, PointerTexts(this)) + StaticVTableLines(this)
      ensures builder.depth == 0
    {
      RenderPointers(builder);
      builder.CloseBlock();
      builder.AppendLine("");
      builder.AppendLine(StaticVTableLine(structInfo));
      builder.AppendLine("");
    }

    /** Appends the address declaration of every info, in order (the first `Iter`). */
    method RenderAddresses(builder: LineWriter)
      modifies builder
      ensures builder.lines == old(builder.lines) + AtDepth(old(builder.depth), AddressTexts(this))
      ensures builder.depth == old(builder.depth)
    {
      var k := 0;
      while k < |staticAddressInfos|
        invariant 0 <= k <= |staticAddressInfos|
        invariant builder.depth == old(builder.depth)
        invariant builder.lines == old(builder.lines) + AtDepth(builder.depth, AddressTexts(this)[..k])
      {
        AtDepthStep(builder.depth, AddressTexts(this), k);
        staticAddressInfos[k].RenderAddress(builder, structInfo);
        k := k + 1;
      }
      assert AddressTexts(this)[..k] == AddressTexts(this);
    }

    /** Appends the pointer property of every info, in order (the second `Iter`). */
    method RenderPointers(builder: LineWriter)
      modifies builder
      ensures builder.lines == old(builder.lines) + AtDepth(old(builder.depth), PointerTexts(this))
      ensures builder.depth == old(builder.depth)
    {
      var k := 0;
      while k < |staticAddressInfos|
        invariant 0 <= k <= |staticAddressInfos|
        invariant builder.depth == old(builder.depth)
        invariant builder.lines == old(builder.lines) + AtDepth(builder.depth, PointerTexts(this)[..k])
      {
        AtDepthStep(builder.depth, PointerTexts(this), k);
        staticAddressInfos[k].RenderPointer(builder, structInfo);
        k := k + 1;
      }
      assert PointerTexts(this)[..k] == PointerTexts(this);
    }

    /** Appends one resolver registration per static address info of this struct. */
    method RenderResolverSource(builder: LineWriter)
      modifies builder
      ensures builder.lines == old(builder.lines) + AtDepth(old(builder.depth), Registrations(this))
      ensures builder.depth == old(builder.depth)
    {
      var k := 0;
      while k < |staticAddressInfos|
        invariant 0 <= k <= |staticAddressInfos|
        invariant builder.depth == old(builder.depth)
        invariant builder.lines == old(builder.lines) + AtDepth(builder.depth, Registrations(this)[..k])
      {
        AtDepthStep(builder.depth, Registrations(this), k);
        staticAddressInfos[k].RenderAddToResolver(builder, structInfo);
        k := k + 1;
      }
      assert Registrations(this)[..k] == Registrations(this);
    }
  }

  // ---------------------------------------------------------------------------
  // The rendered lines
  // ---------------------------------------------------------------------------

  const AddressHead: string := "public static readonly Address VTable = new StaticAddress(\""

  /** The declaration of one static address; the struct info is the one the caller passes. */
  function AddressLine(sai: StaticAddressInfo, structInfo: StructInfo): string
  {
    AddressName(structInfo) + SignatureArguments(sai.signatureInfo) + ", 0, " + Text.IntToDecimal(sai.offset) + ");"
  }

  /** The start of an address declaration, up to the address's name: the struct's name and `.VTable`. */
  function AddressName(structInfo: StructInfo): string
  {
    AddressHead + structInfo.name + ".VTable\""
  }

  /** The signature's text, byte-array and mask-array arguments of an address declaration. */
  function SignatureArguments(sig: SignatureInfo): string
  {
    ", \"" + sig.signature + "\", " + sig.byteArrayString + ", " + sig.maskArrayString
  }

  function PointerLine(structInfo: StructInfo): string
  {
    "public static nuint VTable => " + structInfo.name + ".Addresses.VTable.Value;"
  }

  function StaticVTableLine(structInfo: StructInfo): string
  {
    "public static " + structInfo.name + "VTable StaticVTable => *(" + structInfo.name
    + "VTable*)StaticAddressPointers.VTable;"
  }

  /** `global::` followed by the namespace, the enclosing types and the name, dot-separated. */
  function FullTypeName(structInfo: StructInfo): string
  {
    var hierarchy := if |structInfo.hierarchy| > 0 then "." + Text.Join('.', structInfo.hierarchy) else "";
    "global::" + structInfo.namespace + hierarchy + "." + structInfo.name
  }

  function RegistrationLine(structInfo: StructInfo): string
  {
    "Resolver.GetInstance.RegisterAddress(" + FullTypeName(structInfo) + ".Addresses.VTable);"
  }

  /** `StructWithStaticAddressInfos.GetFileName`. */
  function FileName(s: StructWithStaticAddressInfos): string
  {
    s.structInfo.namespace + "." + s.structInfo.name + ".VTableAddresses.g.cs"
  }

  /** The address declarations of a struct, one per info, in order. */
  function AddressTexts(s: StructWithStaticAddressInfos): (texts: seq<string>)
    ensures |texts| == |s.staticAddressInfos|
  {
    seq(|s.staticAddressInfos|, k requires 0 <= k < |s.staticAddressInfos| =>
      AddressLine(s.staticAddressInfos[k], s.structInfo))
  }

  /** The pointer properties of a struct, one per info. */
  function PointerTexts(s: StructWithStaticAddressInfos): (texts: seq<string>)
    ensures |texts| == |s.staticAddressInfos|
  {
    seq(|s.staticAddressInfos|, k requires 0 <= k < |s.staticAddressInfos| => PointerLine(s.structInfo))
  }

  /** The resolver registrations of a struct, one per info. */
  function Registrations(s: StructWithStaticAddressInfos): (texts: seq<string>)
    ensures |texts| == |s.staticAddressInfos|
  {
    seq(|s.staticAddressInfos|, k requires 0 <= k < |s.staticAddressInfos| => RegistrationLine(s.structInfo))
  }

  function AddressesHead(): seq<Line>
  {
    [Line(0, "public static partial class Addresses"), Line(0, "{")]
  }

  /** The `Addresses` class: one declaration per info, one level deeper than its braces. */
  function AddressesBlock(s: StructWithStaticAddressInfos): seq<Line>
  {
    AddressesHead() + AtDepth(1, AddressTexts(s)) + [Line(0, "}"), Line(0, "")]
  }

  /** The empty partial VTable struct and the head of the `StaticAddressPointers` class. */
  function VTableStructLines(s: StructWithStaticAddressInfos): seq<Line>
  {
    [Line(0, "public partial struct " + s.structInfo.name + "VTable"), Line(0, "{"), Line(0, "}"), Line(0, ""),
     Line(0, "public unsafe static partial class StaticAddressPointers")]
  }

  function StaticVTableLines(s: StructWithStaticAddressInfos): seq<Line>
  {
    [Line(0, "}"), Line(0, ""), Line(0, StaticVTableLine(s.structInfo)), Line(0, "")]
  }

  /** What `RenderSource` writes after `RenderStart`, with depths relative to where that leaves off. */
  function SourceLines(s: StructWithStaticAddressInfos): seq<Line>
  {
    AddressesBlock(s) + VTableStructLines(s) + [Line(0, "{")] + AtDepth(1, PointerTexts(s)) + StaticVTableLines(s)
  }

  /** The registrations of every successfully validated struct, in input order. */
  function ResolverRegistrations(structs: seq<Validation<StructWithStaticAddressInfos>>): seq<string>
    decreases |structs|
  {
    if |structs| == 0 then []
    else
      (match structs[0] case Succ(s) => Registrations(s) case Fail(_) => [])
      + ResolverRegistrations(structs[1..])
  }

  const ResolverHead: seq<Line> := [
    Line(0, "// <auto-generated/>"),
    Line(0, "using System.Runtime.CompilerServices;"),
    Line(0, ""),
    Line(0, "namespace FFXIVClientStructs.Interop;"),
    Line(0, ""),
    Line(0, "public unsafe sealed partial class Resolver"),
    Line(0, "{"),
    Line(1, "[ModuleInitializer]"),
    Line(1, "internal static void AddVTableAddresses()"),
    Line(1, "{")
  ]

  const ResolverTail: seq<Line> := [Line(1, "}"), Line(0, "}")]

  /** The resolver file: a module initializer that registers every address. */
  function ResolverSourceLines(structs: seq<Validation<StructWithStaticAddressInfos>>): seq<Line>
  {
    ResolverHead + AtDepth(2, ResolverRegistrations(structs)) + ResolverTail
  }

  /** `BuildResolverSource`. */
  method BuildResolverSource(structInfos: seq<Validation<StructWithStaticAddressInfos>>) returns (lines: seq<Line>)
    ensures lines == ResolverSourceLines(structInfos)
  {
    var builder := new LineWriter();
    RenderResolverHead(builder);
    var k := 0;
    while k < |structInfos|
      invariant 0 <= k <= |structInfos|
      invariant builder.depth == 2
      invariant builder.lines == ResolverHead + AtDepth(2, ResolverRegistrations(structInfos[..k]))
    {
      ResolverRegistrationsStep(structInfos, k);
      if structInfos[k].Succ? {
        structInfos[k].value.RenderResolverSource(builder);
      }
      k := k + 1;
    }
    assert structInfos[..k] == structInfos;
    builder.DecrementIndent();
    builder.AppendLine("}");
    builder.DecrementIndent();
    builder.AppendLine("}");
    lines := builder.lines;
  }

  /** The resolver file up to the opening of the module initializer's body. */
  method RenderResolverHead(builder: LineWriter)
    requires builder.lines == [] && builder.depth == 0
    modifies builder
    ensures builder.lines == ResolverHead && builder.depth == 2
  {
    builder.AppendLine("// <auto-generated/>");
    builder.AppendLine("using System.Runtime.CompilerServices;");
    builder.AppendLine("");
    builder.AppendLine("namespace FFXIVClientStructs.Interop;");
    builder.AppendLine("");
    builder.AppendLine("public unsafe sealed partial class Resolver");
    builder.AppendLine("{");
    builder.Indent();
    builder.AppendLine("[ModuleInitializer]");
    builder.AppendLine("internal static void AddVTableAddresses()");
    builder.AppendLine("{");
    builder.Indent();
  }

  // ---------------------------------------------------------------------------
  // Properties
  // ---------------------------------------------------------------------------

  /** The address declaration starts by naming the address after the struct: `Name.VTable`. */
  lemma AddressLineName(sai: StaticAddressInfo, structInfo: StructInfo)
    ensures var line, head := AddressLine(sai, structInfo), AddressHead + structInfo.name + ".VTable\"";
      |head| <= |line| && line[..|head|] == head
  {
    var head := AddressName(structInfo);
    var rest := SignatureArguments(sai.signatureInfo) + ", 0, " + Text.IntToDecimal(sai.offset) + ");";
    assert AddressLine(sai, structInfo) == head + rest;
    assert (head + rest)[..|head|] == head;
  }

  /**
   * The address declaration ends with the arguments `0` and the offset:
   * reading back its last argument gives the offset exactly, negative
   * offsets included.
   */
  lemma AddressLineOffset(sai: StaticAddressInfo, structInfo: StructInfo)
    ensures Text.ClosingIntegerArgument(AddressLine(sai, structInfo)) == Some(sai.offset as int)
    ensures exists prefix :: AddressLine(sai, structInfo) == prefix + ", 0, " + Text.IntToDecimal(sai.offset) + ");"
  {
    var p := AddressName(structInfo) + SignatureArguments(sai.signatureInfo) + ", 0, ";
    assert p[|p| - 1] == ' ';
    Text.ClosingIntegerArgumentOf(p, sai.offset);
  }

  /** The address declaration does not depend on whether the address is a pointer. */
  lemma AddressLineIgnoresIsPointer(sai: StaticAddressInfo, structInfo: StructInfo, isPointer: bool)
    ensures AddressLine(sai.(isPointer := isPointer), structInfo) == AddressLine(sai, structInfo)
  {
  }

  /** The full type name is `global::` and the dot-join of namespace, enclosing types and name. */
  lemma FullTypeNameJoin(structInfo: StructInfo)
    ensures FullTypeName(structInfo)
         == "global::" + Text.Join('.', [structInfo.namespace] + structInfo.hierarchy + [structInfo.name])
  {
    var ns, h, n := structInfo.namespace, structInfo.hierarchy, structInfo.name;
    if |h| == 0 {
      assert [ns] + h + [n] == [ns, n];
    } else {
      Text.JoinAppend('.', h, [n]);
      Text.JoinAppend('.', [ns], h + [n]);
      assert [ns] + h + [n] == [ns] + (h + [n]);
      assert FullTypeName(structInfo) == "global::" + ns + "." + Text.Join('.', h) + "." + n;
    }
  }

  /**
   * Read back, the dotted full type name gives the namespace's own parts, then
   * the enclosing types and then the struct's name, provided none of the
   * latter contains a dot.
   */
  lemma FullTypeNameParts(structInfo: StructInfo)
    requires forall i :: 0 <= i < |structInfo.hierarchy| ==> '.' !in structInfo.hierarchy[i]
    requires '.' !in structInfo.name
    ensures |FullTypeName(structInfo)| >= 8 && FullTypeName(structInfo)[..8] == "global::"
    ensures Text.Split('.', FullTypeName(structInfo)[8..])
         == Text.Split('.', structInfo.namespace) + structInfo.hierarchy + [structInfo.name]
  {
    var ns, rest := structInfo.namespace, structInfo.hierarchy + [structInfo.name];
    FullTypeNameJoin(structInfo);
    Text.JoinAppend('.', [ns], rest);
    assert [ns] + structInfo.hierarchy + [structInfo.name] == [ns] + rest;
    assert FullTypeName(structInfo)[8..] == ns + ['.'] + Text.Join('.', rest);
    Text.SplitAppend('.', ns, Text.Join('.', rest));
    forall i | 0 <= i < |rest| ensures '.' !in rest[i] {
      if i < |structInfo.hierarchy| {
        assert rest[i] == structInfo.hierarchy[i];
      }
    }
    Text.SplitJoin('.', rest);
  }

  /** The registration passes the struct's `Addresses.VTable`, under its full type name. */
  lemma RegistrationLineShape(structInfo: StructInfo)
    ensures RegistrationLine(structInfo)
         == "Resolver.GetInstance.RegisterAddress(global::"
            + Text.Join('.', [structInfo.namespace] + structInfo.hierarchy + [structInfo.name])
            + ".Addresses.VTable);"
  {
    FullTypeNameJoin(structInfo);
  }

  /** A file name is the namespace, a dot and the struct's name, followed by a fixed suffix. */
  lemma FileNameStem(s: StructWithStaticAddressInfos)
    requires '.' !in s.structInfo.name
    ensures var name := FileName(s);
      && |name| >= 21
      && name[|name| - 21..] == ".VTableAddresses.g.cs"
      && Text.Split('.', name[..|name| - 21]) == Text.Split('.', s.structInfo.namespace) + [s.structInfo.name]
  {
    var ns, n := s.structInfo.namespace, s.structInfo.name;
    var stem := ns + ['.'] + n;
    assert FileName(s) == stem + ".VTableAddresses.g.cs";
    assert FileName(s)[..|FileName(s)| - 21] == stem;
    Text.SplitAppend('.', ns, n);
    Text.SplitWithoutSeparator('.', n);
  }

  /** Two structs with dot-free names share a file name only when namespace and name agree. */
  lemma FileNameInjective(s: StructWithStaticAddressInfos, t: StructWithStaticAddressInfos)
    requires '.' !in s.structInfo.name && '.' !in t.structInfo.name
    requires FileName(s) == FileName(t)
    ensures s.structInfo.namespace == t.structInfo.namespace && s.structInfo.name == t.structInfo.name
  {
    FileNameStem(s);
    FileNameStem(t);
    var ps, pt := Text.Split('.', s.structInfo.namespace), Text.Split('.', t.structInfo.namespace);
    var a, b := ps + [s.structInfo.name], pt + [t.structInfo.name];
    assert a == b;
    assert |ps| == |pt|;
    assert a[|ps|] == s.structInfo.name && b[|pt|] == t.structInfo.name;
    assert ps == a[..|ps|] == b[..|pt|] == pt;
    Text.JoinSplit('.', s.structInfo.namespace);
    Text.JoinSplit('.', t.structInfo.namespace);
  }

  /**
   * The file name leaves out the enclosing types: two structs of the same
   * name and namespace nested in different types get the same file name.
   */
  lemma FileNameIgnoresHierarchy(s: StructWithStaticAddressInfos, hierarchy: seq<string>)
    ensures FileName(s.(structInfo := s.structInfo.(hierarchy := hierarchy))) == FileName(s)
  {
  }

  /** Where the `Addresses` block ends inside the per-struct file. */
  lemma SourceLinesFront(s: StructWithStaticAddressInfos)
    ensures var front := AddressesBlock(s) + VTableStructLines(s) + [Line(0, "{")];
      && |front| == 10 + |s.staticAddressInfos|
      && SourceLines(s) == front + AtDepth(1, PointerTexts(s)) + StaticVTableLines(s)
      && forall k :: 0 <= k < |AddressesBlock(s)| ==> front[k] == AddressesBlock(s)[k]
  {
    ConcatParts(AddressesBlock(s), VTableStructLines(s), [Line(0, "{")]);
  }

  /** The per-struct file starts with the `Addresses` block. */
  lemma SourceLinesStartWithAddresses(s: StructWithStaticAddressInfos)
    ensures |AddressesBlock(s)| == 4 + |s.staticAddressInfos| && |SourceLines(s)| == 14 + 2 * |s.staticAddressInfos|
    ensures forall k :: 0 <= k < |AddressesBlock(s)| ==> SourceLines(s)[k] == AddressesBlock(s)[k]
  {
    var front := AddressesBlock(s) + VTableStructLines(s) + [Line(0, "{")];
    SourceLinesFront(s);
    ConcatParts(front, AtDepth(1, PointerTexts(s)), StaticVTableLines(s));
  }

  /**
   * The per-struct file opens with the `Addresses` class, whose body holds
   * exactly one declaration per info, in the infos' order, one level deeper
   * than its braces.
   */
  lemma SourceLinesAddresses(s: StructWithStaticAddressInfos)
    ensures var lines, n := SourceLines(s), |s.staticAddressInfos|;
      && |lines| == 14 + 2 * n
      && lines[0] == Line(0, "public static partial class Addresses")
      && lines[1] == Line(0, "{")
      && (forall k :: 2 <= k < 2 + n ==> lines[k] == Line(1, AddressTexts(s)[k - 2]))
      && lines[2 + n] == Line(0, "}")
  {
    SourceLinesStartWithAddresses(s);
    AddressesBlockLines(s);
  }

  /** The `Addresses` block on its own: its head, one declaration per info, its closing brace. */
  lemma AddressesBlockLines(s: StructWithStaticAddressInfos)
    ensures var block, n := AddressesBlock(s), |s.staticAddressInfos|;
      && |block| == 4 + n
      && block[0] == Line(0, "public static partial class Addresses")
      && block[1] == Line(0, "{")
      && (forall k :: 2 <= k < 2 + n ==> block[k] == Line(1, AddressTexts(s)[k - 2]))
      && block[2 + n] == Line(0, "}")
  {
    ConcatParts(AddressesHead(), AtDepth(1, AddressTexts(s)), [Line(0, "}"), Line(0, "")]);
  }

  /**
   * The `StaticAddressPointers` class holds exactly one pointer property per
   * info, one level deeper than its braces, and the `StaticVTable` property
   * follows it.
   */
  lemma SourceLinesPointers(s: StructWithStaticAddressInfos)
    ensures var lines, n := SourceLines(s), |s.staticAddressInfos|;
      && |lines| == 14 + 2 * n
      && lines[9 + n] == Line(0, "{")
      && (forall k :: 10 + n <= k < 10 + 2 * n ==> lines[k] == Line(1, PointerLine(s.structInfo)))
      && lines[10 + 2 * n] == Line(0, "}")
      && lines[12 + 2 * n] == Line(0, StaticVTableLine(s.structInfo))
  {
    var front := AddressesBlock(s) + VTableStructLines(s) + [Line(0, "{")];
    SourceLinesFront(s);
    ConcatParts(front, AtDepth(1, PointerTexts(s)), StaticVTableLines(s));
  }

  /** Only the address declarations and the pointer properties are indented. */
  lemma SourceLinesIndented(s: StructWithStaticAddressInfos)
    ensures forall k :: 0 <= k < |SourceLines(s)| && SourceLines(s)[k].depth != 0 ==>
      (2 <= k < 2 + |s.staticAddressInfos|) || (10 + |s.staticAddressInfos| <= k < 10 + 2 * |s.staticAddressInfos|)
  {
    var n := |s.staticAddressInfos|;
    var lines := SourceLines(s);
    var front := AddressesBlock(s) + VTableStructLines(s) + [Line(0, "{")];
    SourceLinesFront(s);
    ConcatParts(front, AtDepth(1, PointerTexts(s)), StaticVTableLines(s));
    ConcatParts(AddressesHead(), AtDepth(1, AddressTexts(s)), [Line(0, "}"), Line(0, "")]);
    ConcatParts(AddressesBlock(s), VTableStructLines(s), [Line(0, "{")]);
  }

  /** Registrations of earlier structs come before those of later ones. */
  lemma {:induction false} ResolverRegistrationsAppend(xs: seq<Validation<StructWithStaticAddressInfos>>,
                                                       ys: seq<Validation<StructWithStaticAddressInfos>>)
    ensures ResolverRegistrations(xs + ys) == ResolverRegistrations(xs) + ResolverRegistrations(ys)
    decreases |xs|
  {
    if |xs| > 0 {
      assert (xs + ys)[0] == xs[0] && (xs + ys)[1..] == xs[1..] + ys;
      ResolverRegistrationsAppend(xs[1..], ys);
    } else {
      assert xs + ys == ys;
    }
  }

  /** The registrations of the first k + 1 structs, as the loop of `BuildResolverSource` extends them. */
  lemma ResolverRegistrationsStep(structs: seq<Validation<StructWithStaticAddressInfos>>, k: nat)
    requires k < |structs|
    ensures AtDepth(2, ResolverRegistrations(structs[..k + 1]))
         == AtDepth(2, ResolverRegistrations(structs[..k]))
            + (if structs[k].Succ? then AtDepth(2, Registrations(structs[k].value)) else [])
  {
    assert structs[..k + 1] == structs[..k] + [structs[k]];
    ResolverRegistrationsAppend(structs[..k], [structs[k]]);
    assert [structs[k]][1..] == [];
    var last := ResolverRegistrations([structs[k]]);
    AtDepthAppend(2, ResolverRegistrations(structs[..k]), last);
  }

  /**
   * A line is registered exactly when some successfully validated struct with
   * at least one static address info has it as its registration line; failed
   * validations contribute nothing.
   */
  lemma {:induction false} ResolverRegistrationsMembers(structs: seq<Validation<StructWithStaticAddressInfos>>, text: string)
    ensures text in ResolverRegistrations(structs) <==>
      exists k :: 0 <= k < |structs| && structs[k].Succ? && |structs[k].value.staticAddressInfos| > 0
                  && text == RegistrationLine(structs[k].value.structInfo)
    decreases |structs|
  {
    if |structs| > 0 {
      ResolverRegistrationsMembers(structs[1..], text);
      var head := match structs[0] case Succ(s) => Registrations(s) case Fail(_) => [];
      assert text in head <==> structs[0].Succ? && |structs[0].value.staticAddressInfos| > 0
                               && text == RegistrationLine(structs[0].value.structInfo) by {
        if structs[0].Succ? && |structs[0].value.staticAddressInfos| > 0 {
          assert head[0] == RegistrationLine(structs[0].value.structInfo);
        }
      }
      if text in ResolverRegistrations(structs[1..]) {
        var k :| 0 <= k < |structs[1..]| && structs[1..][k].Succ? && |structs[1..][k].value.staticAddressInfos| > 0
                 && text == RegistrationLine(structs[1..][k].value.structInfo);
        assert structs[k + 1] == structs[1..][k];
      }
      if exists k :: 0 <= k < |structs| && structs[k].Succ? && |structs[k].value.staticAddressInfos| > 0
                     && text == RegistrationLine(structs[k].value.structInfo) {
        var k :| 0 <= k < |structs| && structs[k].Succ? && |structs[k].value.staticAddressInfos| > 0
                 && text == RegistrationLine(structs[k].value.structInfo);
        if k > 0 {
          assert structs[1..][k - 1] == structs[k];
        }
      }
    }
  }

  /** When every validation failed the module initializer registers nothing. */
  lemma {:induction false} ResolverRegistrationsAllFailed(structs: seq<Validation<StructWithStaticAddressInfos>>)
    requires forall k :: 0 <= k < |structs| ==> structs[k].Fail?
    ensures ResolverRegistrations(structs) == []
    decreases |structs|
  {
    if |structs| > 0 {
      assert forall k :: 0 <= k < |structs[1..]| ==> structs[1..][k] == structs[k + 1];
      ResolverRegistrationsAllFailed(structs[1..]);
    }
  }

  /**
   * The resolver file: the registrations sit two levels deep inside the
   * initializer's braces, and the file closes both blocks, ending back at
   * the depth it started from.
   */
  lemma ResolverSourceLayout(structs: seq<Validation<StructWithStaticAddressInfos>>)
    ensures var lines, regs := ResolverSourceLines(structs), ResolverRegistrations(structs);
      && |lines| == 12 + |regs|
      && lines[..10] == ResolverHead
      && (forall k :: 10 <= k < 10 + |regs| ==> lines[k] == Line(2, regs[k - 10]))
      && lines[10 + |regs|] == Line(1, "}")
      && lines[|lines| - 1] == Line(0, "}")
  {
    var regs := ResolverRegistrations(structs);
    ConcatParts(ResolverHead, AtDepth(2, regs), ResolverTail);
  }
}
