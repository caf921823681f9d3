/**
  The upload parser of `app/utils/file_parser.py`: the lower-cased file name picks the PDF branch,
  the text branch or the fixed refusal; PDF pages are concatenated one line each, text is decoded
  as UTF-8 with a lenient cp949 fallback, and a successful extraction is wrapped between a header
  naming the original file name and a footer rule. The PDF reader and the decoders are oracles.
*/
module FileParser {
  import opened Outcomes
  import opened Text

  type Bytes = seq<bv8>

  /** An uploaded file: its name as sent and its bytes. */
  datatype Upload = Upload(filename: string, content: Bytes)

  /**
    The libraries the parser calls: the PDF reader (failing to open, or giving each page's text
    extraction, which may itself fail), strict UTF-8 decoding, and cp949 decoding with errors ignored.
  */
  datatype Decoders = Decoders(
    pdf: Bytes -> Result<seq<Result<string, string>>, string>,
    utf8: Bytes -> Result<string, string>,
    cp949Lenient: Bytes -> string)

  const TextSuffixes := [".txt", ".csv", ".py", ".md", ".json", ".log"]
  const Unsupported := "[지원하지 않는 파일 형식입니다. 텍스트나 PDF만 가능합니다.]"
  const Rule := "====================================="

  function ReadError(e: string): string {
    "[파일 읽기 오류: " + e + "]"
  }

  function Header(filename: string): string {
    "\n\n=== [첨부 파일 내용: " + filename + "] ===\n"
  }

  const Footer := "\n" + Rule + "\n"

  function Wrap(filename: string, text: string): string {
    Header(filename) + text + Footer
  }

  datatype Kind = Pdf | PlainText | Other

  /** The branch taken for a file name: decided on the name in lower case. */
  function KindOf(filename: string): Kind {
    var lower := LowerAscii(filename);
    if EndsWith(lower, ".pdf") then Pdf
    else if exists k :: 0 <= k < |TextSuffixes| && EndsWith(lower, TextSuffixes[k]) then PlainText
    else Other
  }

  /** The text the page loop accumulates: each page's text and a newline, up to the first failing page. */
  function PagesText(pages: seq<Result<string, string>>): Result<string, string> {
    if |pages| == 0 then Ok("")
    else
      match PagesText(pages[..|pages| - 1])
      case Err(e) => Err(e)
      case Ok(t) =>
        match pages[|pages| - 1]
        case Err(e) => Err(e)
        case Ok(p) => Ok(t + p + "\n")
  }

  /** What `parse_uploaded_file` returns. */
  function Parsed(file: Upload, dec: Decoders): string {
    match KindOf(file.filename)
    case Other => Unsupported
    case Pdf =>
      (match dec.pdf(file.content)
       case Err(e) => ReadError(e)
       case Ok(pages) =>
         match PagesText(pages)
         case Err(e) => ReadError(e)
         case Ok(t) => Wrap(file.filename, t))
    case PlainText =>
      Wrap(file.filename, match dec.utf8(file.content) case Ok(t) => t case Err(_) => dec.cp949Lenient(file.content))
  }

  /** `parse_uploaded_file`, with its page loop. */
  method ParseUploadedFile(file: Upload, dec: Decoders) returns (text: string)
    ensures text == Parsed(file, dec)
  {
    var kind := KindOf(file.filename);
    var extracted := "";
    if kind == Pdf {
      var reader := dec.pdf(file.content);
      if reader.Err? {
        return ReadError(reader.error);
      }
      var pages := reader.value;
      var i := 0;
      while i < |pages|
        invariant 0 <= i <= |pages|
        invariant PagesText(pages[..i]) == Ok(extracted)
      {
        assert pages[..i + 1][..i] == pages[..i];
        var page := pages[i];
        if page.Err? {
          assert PagesText(pages[..i + 1]) == Err(page.error);
          PagesFailFrom(pages, i + 1);
          return ReadError(page.error);
        }
        extracted := extracted + page.value + "\n";
        i := i + 1;
      }
      assert pages[..i] == pages;
    } else if kind == PlainText {
      var decoded := dec.utf8(file.content);
      if decoded.Ok? {
        extracted := decoded.value;
      } else {
        extracted := dec.cp949Lenient(file.content);
      }
    } else {
      return Unsupported;
    }
    text := Wrap(file.filename, extracted);
  }

  /** Once a prefix of the pages fails, the whole extraction fails with the same error. */
  lemma {:induction false} PagesFailFrom(pages: seq<Result<string, string>>, n: nat)
    requires n <= |pages| && PagesText(pages[..n]).Err?
    ensures PagesText(pages) == PagesText(pages[..n])
    decreases |pages| - n
  {
    if n == |pages| {
      assert pages[..n] == pages;
    } else {
      assert pages[..n + 1][..n] == pages[..n];
      PagesFailFrom(pages, n + 1);
    }
  }

  /** The page texts, each followed by a newline. */
  function PageLines(pages: seq<Result<string, string>>): seq<string> {
    seq(|pages|, k requires 0 <= k < |pages| => if pages[k].Ok? then pages[k].value + "\n" else "")
  }

  /** The extraction succeeds exactly when every page does. */
  lemma {:induction false} PagesTextOkIff(pages: seq<Result<string, string>>)
    ensures PagesText(pages).Ok? <==> forall k :: 0 <= k < |pages| ==> pages[k].Ok?
  {
    if |pages| > 0 {
      var init := pages[..|pages| - 1];
      PagesTextOkIff(init);
      assert forall k :: 0 <= k < |init| ==> init[k] == pages[k];
    }
  }

  /** A successful extraction is every page's text followed by a newline, in page order. */
  lemma {:induction false} PagesTextMeaning(pages: seq<Result<string, string>>)
    ensures PagesText(pages).Ok? ==> PagesText(pages).value == Concat(PageLines(pages))
  {
    if |pages| > 0 && PagesText(pages).Ok? {
      var init := pages[..|pages| - 1];
      PagesTextMeaning(init);
      assert PageLines(pages) == PageLines(init) + [PageLines(pages)[|pages| - 1]];
      ConcatSnoc(PageLines(init), PageLines(pages)[|pages| - 1]);
    }
  }

  /** A failed extraction carries the error of the first failing page. */
  lemma {:induction false} PagesTextFirstError(pages: seq<Result<string, string>>)
    ensures PagesText(pages).Err? ==>
      exists k :: 0 <= k < |pages| && pages[k] == Err(PagesText(pages).error) &&
        forall j :: 0 <= j < k ==> pages[j].Ok?
  {
    if |pages| > 0 && PagesText(pages).Err? {
      var init := pages[..|pages| - 1];
      if PagesText(init).Err? {
        PagesTextFirstError(init);
        var k :| 0 <= k < |init| && init[k] == Err(PagesText(init).error) && forall j :: 0 <= j < k ==> init[j].Ok?;
        assert pages[k] == init[k];
        assert forall j :: 0 <= j < k ==> pages[j] == init[j];
      } else {
        PagesTextOkIff(init);
        assert forall j :: 0 <= j < |init| ==> pages[j] == init[j];
        assert pages[|pages| - 1] == Err(PagesText(pages).error);
      }
    }
  }

  /** The wrapped text gives back the original file name and the extracted text. */
  lemma WrapReadBack(filename: string, text: string)
    ensures Header(filename) <= Wrap(filename, text)
    ensures EndsWith(Wrap(filename, text), Footer)
    ensures Wrap(filename, text)[|Header(filename)|..|Wrap(filename, text)| - |Footer|] == text
  {
    var w := Wrap(filename, text);
    assert w == Header(filename) + text + Footer;
    assert w[|w| - |Footer|..] == Footer;
  }

  /**
    A result is wrapped exactly when the file was of a supported kind and its extraction did not
    fail; the refusal and the read error are returned bare, and they start with `[` where a
    wrapped result starts with a newline. The header names the file as sent, not lower-cased.
  */
  lemma ParsedShape(file: Upload, dec: Decoders)
    ensures var r := Parsed(file, dec);
      && |r| > 0
      && (r[0] == '\n' <==> KindOf(file.filename) != Other
                            && (KindOf(file.filename) == Pdf ==> dec.pdf(file.content).Ok? && PagesText(dec.pdf(file.content).value).Ok?))
      && (r[0] == '\n' ==> Header(file.filename) <= r)
      && (KindOf(file.filename) == Other ==> r == Unsupported)
  {
    var r := Parsed(file, dec);
    if KindOf(file.filename) == PlainText ||
       (KindOf(file.filename) == Pdf && dec.pdf(file.content).Ok? && PagesText(dec.pdf(file.content).value).Ok?) {
      var t :| r == Wrap(file.filename, t);
      WrapReadBack(file.filename, t);
      assert r[0] == Header(file.filename)[0];
    }
  }

  /** The branch follows the suffix whatever its case. */
  lemma DispatchExamples()
    ensures KindOf("Report.PDF") == Pdf
    ensures KindOf("notes.Txt") == PlainText
  {
    assert EndsWith(LowerAscii("notes.Txt"), TextSuffixes[0]);
  }
}
