/**
  The outline of a Go file, from src/lib/goOutline.ts: the flags handed to the
  go-outline tool, the map from declaration types to symbol kinds, and
  `convertToCodeSymbols`, which flattens the declaration tree into symbols in pre-order.

  The tool itself is not run: its declaration list is an input. The byte-offset
  converter is a parameter, and a document position is written as its offset.
 */
module GoOutline {
  import opened Wrappers
  import opened VsCode
  import opened JsStrings

  /**
    One declaration reported by go-outline; its `label` is called `name` here. An absent
    `receiverType` is written `""`, and absent `children` as no children: the source
    treats each absent value like that empty one.
   */
  datatype Decl = Decl(
    name: string,
    typ: string,
    receiverType: string,
    start: int,
    end: int,
    children: seq<Decl>)

  /** The flags for go-outline, built by pushing onto `['-f', fileName]`. */
  method GoOutlineFlags(fileName: string, importsOnly: bool, hasDocument: bool) returns (flags: seq<string>)
    ensures |flags| == 2 + (if importsOnly then 1 else 0) + (if hasDocument then 1 else 0)
    ensures flags[0] == "-f" && flags[1] == fileName
    ensures importsOnly ==> flags[2] == "-imports-only"
    ensures hasDocument ==> flags[|flags| - 1] == "-modified"
  {
    flags := ["-f", fileName];
    if importsOnly {
      flags := flags + ["-imports-only"];
    }
    if hasDocument {
      flags := flags + ["-modified"];
    }
  }

  /** The fixed table of `goKindToCodeKind`. */
  const GoKinds: map<string, SymbolKind> := map[
    "package" := Package,
    "import" := Namespace,
    "variable" := Variable,
    "type" := Interface,
    "function" := Function]

  /** `goKindToCodeKind[type]`: the kind of a known declaration type, `undefined` otherwise. */
  function GoKindToCodeKind(typ: string): (r: Option<SymbolKind>)
    ensures r.Some? <==> typ in GoKinds
  {
    if typ in GoKinds then Some(GoKinds[typ]) else None
  }

  /** Imports, when they are not wanted, and variables labelled `_` are dropped with their subtree. */
  predicate Skipped(d: Decl, includeImports: bool) {
    (!includeImports && d.typ == "import") || (d.name == "_" && d.typ == "variable")
  }

  /** The label shown: a method carries its receiver type in front, `(T).name`. */
  function DisplayLabel(d: Decl): string {
    if d.receiverType != "" then "(" + d.receiverType + ")." + d.name else d.name
  }

  function ToSymbol(d: Decl, uri: Uri, containerName: string, toOffset: int -> int): SymbolInformation {
    SymbolInformation(DisplayLabel(d), GoKindToCodeKind(d.typ), toOffset(d.start - 1), toOffset(d.end - 1),
      uri, containerName)
  }

  /** The symbols of one declaration: itself, then its children's, whose container is its raw label. */
  function FlattenDecl(d: Decl, uri: Uri, containerName: string, includeImports: bool,
                       toOffset: int -> int): seq<SymbolInformation>
    decreases d, 1
  {
    if Skipped(d, includeImports) then []
    else
      [ToSymbol(d, uri, containerName, toOffset)]
      + FlattenSeq(d.children, uri, d.name, includeImports, toOffset)
  }

  /** The symbols of sibling declarations, in their order. */
  function FlattenSeq(ds: seq<Decl>, uri: Uri, containerName: string, includeImports: bool,
                      toOffset: int -> int): seq<SymbolInformation>
    decreases ds, 0
  {
    if ds == [] then []
    else
      FlattenDecl(ds[0], uri, containerName, includeImports, toOffset)
      + FlattenSeq(ds[1..], uri, containerName, includeImports, toOffset)
  }

  /** `(decls || [])`: a missing list has no symbols. */
  function Flatten(decls: Option<seq<Decl>>, uri: Uri, containerName: string, includeImports: bool,
                   toOffset: int -> int): seq<SymbolInformation>
  {
    if decls.None? then [] else FlattenSeq(decls.value, uri, containerName, includeImports, toOffset)
  }

  /** Siblings are emitted in input order: the symbols of a concatenation are concatenated. */
  lemma {:induction false} FlattenSeqAppend(a: seq<Decl>, b: seq<Decl>, uri: Uri, containerName: string,
                                            includeImports: bool, toOffset: int -> int)
    ensures FlattenSeq(a + b, uri, containerName, includeImports, toOffset)
         == FlattenSeq(a, uri, containerName, includeImports, toOffset)
          + FlattenSeq(b, uri, containerName, includeImports, toOffset)
    decreases |a|
  {
    if a == [] {
      assert a + b == b;
    } else {
      var head := FlattenDecl(a[0], uri, containerName, includeImports, toOffset);
      assert (a + b)[0] == a[0];
      assert (a + b)[1..] == a[1..] + b;
      assert FlattenSeq(a + b, uri, containerName, includeImports, toOffset)
          == head + FlattenSeq(a[1..] + b, uri, containerName, includeImports, toOffset);
      FlattenSeqAppend(a[1..], b, uri, containerName, includeImports, toOffset);
      ConcatAssoc(head, FlattenSeq(a[1..], uri, containerName, includeImports, toOffset),
                  FlattenSeq(b, uri, containerName, includeImports, toOffset));
    }
  }

  /** Extending the siblings by one extends the symbols by that declaration's. */
  lemma FlattenSeqSnoc(ds: seq<Decl>, i: nat, uri: Uri, containerName: string, includeImports: bool,
                       toOffset: int -> int)
    requires i < |ds|
    ensures FlattenSeq(ds[..i + 1], uri, containerName, includeImports, toOffset)
         == FlattenSeq(ds[..i], uri, containerName, includeImports, toOffset)
          + FlattenDecl(ds[i], uri, containerName, includeImports, toOffset)
  {
    assert ds[..i + 1] == ds[..i] + [ds[i]];
    FlattenSeqAppend(ds[..i], [ds[i]], uri, containerName, includeImports, toOffset);
    assert [ds[i]][1..] == [];
  }

  /** A declaration that is kept comes first, with its own label, kind and the given container. */
  lemma DeclBeforeChildren(d: Decl, uri: Uri, containerName: string, includeImports: bool, toOffset: int -> int)
    requires !Skipped(d, includeImports)
    ensures var syms := FlattenDecl(d, uri, containerName, includeImports, toOffset);
      |syms| >= 1 && syms[0].name == DisplayLabel(d) && syms[0].kind == GoKindToCodeKind(d.typ)
      && syms[0].containerName == containerName && syms[0].uri == uri
  {
  }

  /** Unless imports are wanted, no symbol of kind Namespace is emitted at any depth. */
  lemma {:induction false} FlattenDeclNoImports(d: Decl, uri: Uri, containerName: string, toOffset: int -> int)
    ensures forall s :: s in FlattenDecl(d, uri, containerName, false, toOffset) ==> s.kind != Some(Namespace)
    decreases d, 1
  {
    if !Skipped(d, false) {
      assert d.typ != "import";
      FlattenSeqNoImports(d.children, uri, d.name, toOffset);
    }
  }

  lemma {:induction false} FlattenSeqNoImports(ds: seq<Decl>, uri: Uri, containerName: string, toOffset: int -> int)
    ensures forall s :: s in FlattenSeq(ds, uri, containerName, false, toOffset) ==> s.kind != Some(Namespace)
    decreases ds, 0
  {
    if ds != [] {
      FlattenDeclNoImports(ds[0], uri, containerName, toOffset);
      FlattenSeqNoImports(ds[1..], uri, containerName, toOffset);
    }
  }

  /** No variable symbol named `_` is ever emitted, at any depth. */
  lemma {:induction false} FlattenDeclNoBlankVariables(d: Decl, uri: Uri, containerName: string,
                                                       includeImports: bool, toOffset: int -> int)
    ensures forall s :: s in FlattenDecl(d, uri, containerName, includeImports, toOffset) ==>
      !(s.name == "_" && s.kind == Some(Variable))
    decreases d, 1
  {
    if !Skipped(d, includeImports) {
      if d.receiverType != "" {
        assert DisplayLabel(d)[0] == '(';
      }
      FlattenSeqNoBlankVariables(d.children, uri, d.name, includeImports, toOffset);
    }
  }

  lemma {:induction false} FlattenSeqNoBlankVariables(ds: seq<Decl>, uri: Uri, containerName: string,
                                                      includeImports: bool, toOffset: int -> int)
    ensures forall s :: s in FlattenSeq(ds, uri, containerName, includeImports, toOffset) ==>
      !(s.name == "_" && s.kind == Some(Variable))
    decreases ds, 0
  {
    if ds != [] {
      FlattenDeclNoBlankVariables(ds[0], uri, containerName, includeImports, toOffset);
      FlattenSeqNoBlankVariables(ds[1..], uri, containerName, includeImports, toOffset);
    }
  }

  /** Every symbol belongs to the given document. */
  lemma {:induction false} FlattenDeclUri(d: Decl, uri: Uri, containerName: string,
                                          includeImports: bool, toOffset: int -> int)
    ensures forall s :: s in FlattenDecl(d, uri, containerName, includeImports, toOffset) ==> s.uri == uri
    decreases d, 1
  {
    if !Skipped(d, includeImports) {
      FlattenSeqUri(d.children, uri, d.name, includeImports, toOffset);
    }
  }

  lemma {:induction false} FlattenSeqUri(ds: seq<Decl>, uri: Uri, containerName: string,
                                         includeImports: bool, toOffset: int -> int)
    ensures forall s :: s in FlattenSeq(ds, uri, containerName, includeImports, toOffset) ==> s.uri == uri
    decreases ds, 0
  {
    if ds != [] {
      FlattenDeclUri(ds[0], uri, containerName, includeImports, toOffset);
      FlattenSeqUri(ds[1..], uri, containerName, includeImports, toOffset);
    }
  }

  /**
    `convertToCodeSymbols`: walks the declarations with `forEach`, pushing each kept
    declaration onto `symbols` and recursing into its children before the next sibling.
    The caller's entries stay as they were; the new ones are the pre-order flattening.
   */
  method ConvertToCodeSymbols(uri: Uri, decls: Option<seq<Decl>>, symbols: seq<SymbolInformation>,
                              containerName: string, includeImports: bool, toOffset: int -> int)
    returns (out: seq<SymbolInformation>)
    ensures out == symbols + Flatten(decls, uri, containerName, includeImports, toOffset)
    ensures out[..|symbols|] == symbols
    decreases if decls.Some? then decls.value else [], 1
  {
    var ds := if decls.Some? then decls.value else [];
    out := symbols;
    var i := 0;
    while i < |ds|
      invariant 0 <= i <= |ds|
      invariant out == symbols + FlattenSeq(ds[..i], uri, containerName, includeImports, toOffset)
    {
      FlattenSeqSnoc(ds, i, uri, containerName, includeImports, toOffset);
      assert ds[i] in ds;
      out := ConvertDecl(uri, ds[i], out, containerName, includeImports, toOffset);
      ConcatAssoc(symbols, FlattenSeq(ds[..i], uri, containerName, includeImports, toOffset),
                  FlattenDecl(ds[i], uri, containerName, includeImports, toOffset));
      i := i + 1;
    }
    assert ds[..i] == ds;
  }

  /** The body of the `forEach`: one declaration, pushed unless skipped, then its children. */
  method ConvertDecl(uri: Uri, d: Decl, symbols: seq<SymbolInformation>, containerName: string,
                     includeImports: bool, toOffset: int -> int)
    returns (out: seq<SymbolInformation>)
    ensures out == symbols + FlattenDecl(d, uri, containerName, includeImports, toOffset)
    decreases d, 0
  {
    out := symbols;
    if !Skipped(d, includeImports) {
      out := out + [ToSymbol(d, uri, containerName, toOffset)];
      if d.children != [] {
        out := ConvertToCodeSymbols(uri, Some(d.children), out, d.name, includeImports, toOffset);
      }
      ConcatAssoc(symbols, [ToSymbol(d, uri, containerName, toOffset)],
                  FlattenSeq(d.children, uri, d.name, includeImports, toOffset));
    }
  }
}
