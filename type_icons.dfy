/**
 * The icon that the types of the upload table which the icon rules single
 * out get: `getFileType` in `src/hooks/useFiles.ts` produces the type,
 * `getIconConfig` in `src/components/FileIcon.tsx` classifies it.
 */
module TypeIcons {
  import opened Text
  import opened Files
  import opened FileIcon
  import opened MimeWords

  /** A type that starts with neither `i`, `v` nor `au` passes none of the three media prefix tests. */
  lemma NotMedia(t: string)
    requires 2 <= |t| && t[0] != 'i' && t[0] != 'v' && (t[0] != 'a' || t[1] != 'u')
    ensures !StartsWith(t, "image/") && !StartsWith(t, "video/") && !StartsWith(t, "audio/")
  {
    if 6 <= |t| {
      assert t[..6][0] == t[0] && t[..6][1] == t[1];
    }
  }

  /**
   * An Office Open XML type whose last two parts lack the earlier rules'
   * words gets the code icon: its `openxmlformats` part holds `xml`.
   */
  lemma OfficeIsCode(e: string, f: string)
    requires LacksEarlyWords(e) && LacksEarlyWords(f)
    ensures GetIconConfig("application" + "/" + "vnd" + "." + "openxmlformats" + "-" + "officedocument"
                          + "." + e + "." + f) == CodeIcon
  {
    var t := "application" + "/" + "vnd" + "." + "openxmlformats" + "-" + "officedocument" + "." + e + "." + f;
    ApplicationWords();
    VndWords();
    OpenxmlformatsWords();
    OfficedocumentWords();
    SixLackEarlyWords("application", "vnd", "openxmlformats", "officedocument", e, f);
    SixParts("application", "vnd", "openxmlformats", "officedocument", e, f, "xml");
    NotMedia(t);
  }

  // ---------------------------------------------------------------------
  // The icon of each type the rules single out
  // ---------------------------------------------------------------------

  /**
   * `image/svg+xml` contains `xml`, which the code rule looks for, but the
   * image prefix is tested first.
   */
  lemma SvgIsImage()
    ensures Contains("image/svg+xml", "xml")
    ensures GetIconConfig("image/svg+xml") == ImageIcon
  {
    assert OccursAt("image/svg+xml", "xml", 10);
  }

  lemma PdfIsPdf()
    ensures GetIconConfig(PdfType) == PdfIcon
  {
    ContainsAcross("application", '/', "pdf", "pdf");
    assert OccursAt("pdf", "pdf", 0);
    NotMedia(PdfType);
  }

  lemma ZipIsArchive()
    ensures GetIconConfig(ZipType) == ArchiveIcon
  {
    ApplicationWords();
    ZipPartWords();
    TwoParts("application", "zip");
    ContainsAcross("application", '/', "zip", "pdf");
    ContainsAcross("application", '/', "zip", "spreadsheet");
    ContainsAcross("application", '/', "zip", "excel");
    ContainsAcross("application", '/', "zip", "csv");
    ContainsAcross("application", '/', "zip", "zip");
    NotMedia(ZipType);
  }

  lemma RarIsArchive()
    ensures GetIconConfig(RarType) == ArchiveIcon
  {
    ApplicationWords();
    RarPartsWords();
    FourParts("application", "x", "rar", "compressed", "pdf");
    FourParts("application", "x", "rar", "compressed", "spreadsheet");
    FourParts("application", "x", "rar", "compressed", "excel");
    FourParts("application", "x", "rar", "compressed", "csv");
    FourParts("application", "x", "rar", "compressed", "zip");
    FourParts("application", "x", "rar", "compressed", "rar");
    NotMedia(RarType);
  }

  /** The Word document type contains `openxmlformats`, hence `xml`, and gets the code icon. */
  lemma DocxIsCode()
    ensures GetIconConfig(DocxType) == CodeIcon
  {
    WordprocessingmlWords();
    DocumentWords();
    OfficeIsCode("wordprocessingml", "document");
  }

  /** The presentation type gets the code icon for the same reason. */
  lemma PptxIsCode()
    ensures GetIconConfig(PptxType) == CodeIcon
  {
    PresentationWords();
    OfficeIsCode("presentationml", "presentation");
  }

  /** The spreadsheet type holds `spreadsheet` and `xml` but not `pdf`. */
  lemma XlsxWords()
    ensures !Contains(XlsxType, "pdf") && Contains(XlsxType, "spreadsheet") && Contains(XlsxType, "xml")
  {
    var e, f := "spreadsheetml", "sheet";
    ApplicationWords();
    VndWords();
    OpenxmlformatsWords();
    OfficedocumentWords();
    XlsxTailWords();
    SixParts("application", "vnd", "openxmlformats", "officedocument", e, f, "pdf");
    SixParts("application", "vnd", "openxmlformats", "officedocument", e, f, "spreadsheet");
    SixParts("application", "vnd", "openxmlformats", "officedocument", e, f, "xml");
  }

  /** The spreadsheet type also contains `xml`, but `spreadsheet` is tested earlier. */
  lemma XlsxIsSpreadsheet()
    ensures Contains(XlsxType, "xml")
    ensures GetIconConfig(XlsxType) == SpreadsheetIcon
  {
    XlsxWords();
    NotMedia(XlsxType);
  }

  /** `text/plain` and the older Word type get the text icon. */
  lemma TextTypes()
    ensures GetIconConfig("text/plain") == TextIcon
    ensures GetIconConfig(MswordType) == TextIcon
  {
    PlainWords();
    MswordIsText();
  }

  lemma MswordIsText()
    ensures GetIconConfig(MswordType) == TextIcon
  {
    ApplicationWords();
    MswordWords();
    TwoParts("application", "msword");
    ContainsAcross("application", '/', "msword", "word");
    NotMedia(MswordType);
  }

  /** `text/html` and `text/css` contain `text`, but the code rule is tested first. */
  lemma MarkupIsCode()
    ensures Contains("text/html", "text") && GetIconConfig("text/html") == CodeIcon
    ensures Contains("text/css", "text") && GetIconConfig("text/css") == CodeIcon
  {
    HtmlWords();
    NotMedia("text/html");
    CssWords();
    NotMedia("text/css");
  }
}
