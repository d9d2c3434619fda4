/**
 * Text extraction in backend/file_processor.py: the choice of extractor by
 * file name, and the extractors themselves over the libraries' results.
 *
 * The document libraries are parameters: a PDF or DOCX extractor is given
 * what opening the file produced, either the texts of its pages or
 * paragraphs (Ok) or the message of the exception raised (Err).
 */
module Extractors {
  import opened Wrappers
  import opened Text

  /** The extractor run_processing_job picks for a file. */
  datatype Kind = Pdf | Docx | Unsupported

  /** The lower-cased pathlib suffix of a file name decides its extractor. */
  function Dispatch(name: string): (k: Kind)
    ensures k == Pdf <==> Lower(Suffix(name)) == ".pdf"
    ensures k == Docx <==> Lower(Suffix(name)) == ".docx"
  {
    var ext := Lower(Suffix(name));
    if ext == ".pdf" then Pdf else if ext == ".docx" then Docx else Unsupported
  }

  /** Only '.' lower-cases to '.', and only letters lower-case to letters. */
  lemma LowerCharDot(c: char)
    ensures LowerChar(c) == '.' <==> c == '.'
  {
  }

  /** When the last dot of a name is neither its first nor its last character, the suffix starts at that dot. */
  lemma SuffixAtLastDot(name: string, p: nat)
    requires 0 < p < |name| - 1 && name[p] == '.'
    requires forall j :: p < j < |name| ==> name[j] != '.'
    ensures Suffix(name) == name[p..]
  {
    var r := Suffix(name);
    SuffixSpec(name);
    assert r != "";
    var q := |name| - |r|;
    assert name[q] == r[0] == '.';
  }

  /**
   * The dispatch key equals an extension exactly when the name is longer than
   * the extension and ends with it, ignoring ASCII case. So "report.PDF" and
   * "a.b.Docx" are handled, while ".pdf" (a dot-file with no suffix),
   * "scan.pdf." and "notes.txt" are not.
   */
  lemma DispatchKeyByEnding(name: string, ext: string)
    requires ext == ".pdf" || ext == ".docx"
    ensures Lower(Suffix(name)) == ext <==> |name| > |ext| && Lower(name[|name| - |ext|..]) == ext
  {
    SuffixSpec(name);
    if |name| > |ext| && Lower(name[|name| - |ext|..]) == ext {
      EndingGivesSuffix(name, ext);
    }
  }

  /** A name ending in ".pdf" or ".docx" (any case) after at least one character has that suffix. */
  lemma EndingGivesSuffix(name: string, ext: string)
    requires ext == ".pdf" || ext == ".docx"
    requires |name| > |ext| && Lower(name[|name| - |ext|..]) == ext
    ensures Suffix(name) == name[|name| - |ext|..]
  {
    var L := |ext|;
    var p := |name| - L;
    var t := name[p..];
    assert forall j :: 0 <= j < L ==> LowerChar(t[j]) == ext[j] by {
      forall j | 0 <= j < L ensures LowerChar(t[j]) == ext[j] {
        assert Lower(t)[j] == LowerChar(t[j]);
      }
    }
    LowerCharDot(t[0]);
    forall j | p < j < |name| ensures name[j] != '.' {
      assert name[j] == t[j - p];
      LowerCharDot(t[j - p]);
    }
    SuffixAtLastDot(name, p);
  }

  /** A name is routed to the PDF extractor exactly when it is longer than ".pdf" and ends so, in any case. */
  lemma DispatchPdfIff(name: string)
    ensures Dispatch(name) == Pdf <==> |name| > 4 && Lower(name[|name| - 4..]) == ".pdf"
  {
    DispatchKeyByEnding(name, ".pdf");
  }

  /** A name is routed to the DOCX extractor exactly when it is longer than ".docx" and ends so, in any case. */
  lemma DispatchDocxIff(name: string)
    ensures Dispatch(name) == Docx <==> |name| > 5 && Lower(name[|name| - 5..]) == ".docx"
  {
    DispatchKeyByEnding(name, ".docx");
  }

  /** _extract_text_from_pdf: pages joined by newlines; any error gives "" instead of raising. */
  function ExtractPdf(loaded: Result<seq<string>>): (text: string)
    ensures loaded.Err? ==> text == ""
  {
    match loaded
    case Ok(pages) => Join("\n", pages)
    case Err(_) => ""
  }

  /** A readable PDF gives blank text exactly when every page is blank; an unreadable one always does. */
  lemma PdfTextBlankIff(loaded: Result<seq<string>>)
    ensures loaded.Err? ==> IsBlank(ExtractPdf(loaded))
    ensures loaded.Ok? ==>
      (IsBlank(ExtractPdf(loaded)) <==> forall k :: 0 <= k < |loaded.value| ==> IsBlank(loaded.value[k]))
  {
    if loaded.Ok? {
      JoinBlank("\n", loaded.value);
    }
  }

  /** _extract_text_from_docx: paragraphs joined by newlines; an error is not caught and reaches the caller. */
  function ExtractDocx(loaded: Result<seq<string>>): (r: Result<string>)
    ensures r.Err? <==> loaded.Err?
    ensures r.Err? ==> r.error == loaded.error
  {
    match loaded
    case Ok(paragraphs) => Ok(Join("\n", paragraphs))
    case Err(e) => Err(e)
  }

  /** A readable DOCX gives blank text exactly when every paragraph is blank. */
  lemma DocxTextBlankIff(loaded: Result<seq<string>>)
    requires loaded.Ok?
    ensures ExtractDocx(loaded).Ok?
    ensures IsBlank(ExtractDocx(loaded).value) <==> forall k :: 0 <= k < |loaded.value| ==> IsBlank(loaded.value[k])
  {
    JoinBlank("\n", loaded.value);
  }

  /** The labelled block _extract_text_from_xlsx appends for one sheet. */
  function SheetBlock(sheetName: string, rendered: string): string
  {
    "--- Sheet: " + sheetName + " ---\n" + rendered + "\n\n"
  }

  /** The blocks of the given sheets, in order; `render` stands for read_excel followed by to_string. */
  function SheetBlocks(sheetNames: seq<string>, render: string -> string): string
  {
    if sheetNames == [] then ""
    else
      var n := |sheetNames| - 1;
      SheetBlocks(sheetNames[..n], render) + SheetBlock(sheetNames[n], render(sheetNames[n]))
  }

  /** _extract_text_from_xlsx: accumulate one block per sheet name, in workbook order. */
  method ExtractXlsx(sheetNames: seq<string>, render: string -> string) returns (fullText: string)
    ensures fullText == SheetBlocks(sheetNames, render)
    ensures forall k :: 0 <= k < |sheetNames| ==>
      var off := |SheetBlocks(sheetNames[..k], render)|;
      var block := SheetBlock(sheetNames[k], render(sheetNames[k]));
      off + |block| <= |fullText| && fullText[off..off + |block|] == block
  {
    fullText := "";
    for i := 0 to |sheetNames|
      invariant fullText == SheetBlocks(sheetNames[..i], render)
    {
      var df := render(sheetNames[i]);
      fullText := fullText + SheetBlock(sheetNames[i], df);
      assert sheetNames[..i + 1][..i] == sheetNames[..i];
    }
    assert sheetNames[..|sheetNames|] == sheetNames;
    forall k | 0 <= k < |sheetNames|
      ensures var off := |SheetBlocks(sheetNames[..k], render)|;
              var block := SheetBlock(sheetNames[k], render(sheetNames[k]));
              off + |block| <= |fullText| && fullText[off..off + |block|] == block
    {
      SheetBlockAt(sheetNames, render, k);
    }
  }

  /** Blocks of a concatenation are the concatenation of the blocks. */
  lemma {:induction false} SheetBlocksAppend(a: seq<string>, b: seq<string>, render: string -> string)
    ensures SheetBlocks(a + b, render) == SheetBlocks(a, render) + SheetBlocks(b, render)
  {
    if b != [] {
      var n := |b| - 1;
      assert (a + b)[..|a + b| - 1] == a + b[..n];
      SheetBlocksAppend(a, b[..n], render);
    } else {
      assert a + b == a;
    }
  }

  /** No sheet is dropped: sheet k's block sits right after the blocks of the sheets before it. */
  lemma SheetBlockAt(sheetNames: seq<string>, render: string -> string, k: nat)
    requires k < |sheetNames|
    ensures var all := SheetBlocks(sheetNames, render);
            var off := |SheetBlocks(sheetNames[..k], render)|;
            var block := SheetBlock(sheetNames[k], render(sheetNames[k]));
            off + |block| <= |all| && all[off..off + |block|] == block
  {
    var front := sheetNames[..k + 1];
    assert sheetNames == front + sheetNames[k + 1..];
    SheetBlocksAppend(front, sheetNames[k + 1..], render);
    assert front[..k] == sheetNames[..k];
  }
}
