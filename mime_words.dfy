/**
 * Which of the words that the icon rules of `src/components/FileIcon.tsx`
 * look for occur in the MIME types that `src/hooks/useFiles.ts` produces.
 *
 * A type is cut into parts at the separators `/`, `.` and `-`, which none of
 * the words uses, so a word occurs in the type exactly when it occurs in a
 * part. Each part is written over a small set of letters, and a word with a
 * letter outside that set cannot occur in the part.
 */
module MimeWords {
  import opened Text

  /** None of the words of the pdf and spreadsheet rules occurs in `s`. */
  predicate LacksPdfSheetWords(s: string)
  {
    !Contains(s, "pdf") && !Contains(s, "spreadsheet") && !Contains(s, "excel") && !Contains(s, "csv")
  }

  /** None of the words of the pdf, spreadsheet and archive rules occurs in `s`. */
  predicate LacksEarlyWords(s: string)
  {
    LacksPdfSheetWords(s) && !Contains(s, "zip") && !Contains(s, "rar") && !Contains(s, "archive")
  }

  /** None of the words of the code rule occurs in `s`. */
  predicate LacksCodeWords(s: string)
  {
    && !Contains(s, "javascript") && !Contains(s, "json") && !Contains(s, "html")
    && !Contains(s, "css") && !Contains(s, "xml")
  }

  /** Every character of `s` is one of `letters`. */
  predicate Within(s: string, letters: set<char>)
  {
    forall i | 0 <= i < |s| :: s[i] in letters
  }

  /** A word whose `i`th letter is outside the letters of `s` does not occur in `s`. */
  lemma Outside(s: string, letters: set<char>, p: string, i: int)
    requires Within(s, letters) && 0 <= i < |p| && p[i] !in letters
    ensures !Contains(s, p)
  {
    MissingChar(s, p, p[i]);
  }

  /** Each index picks a letter of the word that `s` does not use. */
  lemma SheetBy(s: string, letters: set<char>, a: int, b: int, c: int, d: int)
    requires Within(s, letters)
    requires 0 <= a < 3 && 0 <= b < 11 && 0 <= c < 5 && 0 <= d < 3
    requires "pdf"[a] !in letters && "spreadsheet"[b] !in letters
    requires "excel"[c] !in letters && "csv"[d] !in letters
    ensures LacksPdfSheetWords(s)
  {
    Outside(s, letters, "pdf", a);
    Outside(s, letters, "spreadsheet", b);
    Outside(s, letters, "excel", c);
    Outside(s, letters, "csv", d);
  }

  /** As `SheetBy`, for all the earlier rules' words; `rar` is shown apart. */
  lemma EarlyBy(s: string, letters: set<char>, a: int, b: int, c: int, d: int, e: int, g: int)
    requires Within(s, letters)
    requires 0 <= a < 3 && 0 <= b < 11 && 0 <= c < 5 && 0 <= d < 3 && 0 <= e < 3 && 0 <= g < 7
    requires "pdf"[a] !in letters && "spreadsheet"[b] !in letters
    requires "excel"[c] !in letters && "csv"[d] !in letters
    requires "zip"[e] !in letters && "archive"[g] !in letters
    requires !Contains(s, "rar")
    ensures LacksEarlyWords(s)
  {
    SheetBy(s, letters, a, b, c, d);
    Outside(s, letters, "zip", e);
    Outside(s, letters, "archive", g);
  }

  /** As `SheetBy`, for the code rule's words. */
  lemma CodeBy(s: string, letters: set<char>, a: int, b: int, c: int, d: int, e: int)
    requires Within(s, letters)
    requires 0 <= a < 10 && 0 <= b < 4 && 0 <= c < 4 && 0 <= d < 3 && 0 <= e < 3
    requires "javascript"[a] !in letters && "json"[b] !in letters && "html"[c] !in letters
    requires "css"[d] !in letters && "xml"[e] !in letters
    ensures LacksCodeWords(s)
  {
    Outside(s, letters, "javascript", a);
    Outside(s, letters, "json", b);
    Outside(s, letters, "html", c);
    Outside(s, letters, "css", d);
    Outside(s, letters, "xml", e);
  }

  // ---------------------------------------------------------------------
  // Types as parts between separators
  // ---------------------------------------------------------------------

  /** A word occurs in `a/b-c-d` exactly when it occurs in one of the four parts. */
  lemma FourParts(a: string, b: string, c: string, d: string, w: string)
    requires '/' !in w && '-' !in w
    ensures Contains(a + "/" + b + "-" + c + "-" + d, w)
            <==> Contains(a, w) || Contains(b, w) || Contains(c, w) || Contains(d, w)
  {
    ContainsAcross(a, '/', b, w);
    ContainsAcross(a + "/" + b, '-', c, w);
    ContainsAcross(a + "/" + b + "-" + c, '-', d, w);
  }

  /** A word occurs in `a/b.c-d.e.f` exactly when it occurs in one of the six parts. */
  lemma SixParts(a: string, b: string, c: string, d: string, e: string, f: string, w: string)
    requires '/' !in w && '.' !in w && '-' !in w
    ensures Contains(a + "/" + b + "." + c + "-" + d + "." + e + "." + f, w)
            <==> || Contains(a, w) || Contains(b, w) || Contains(c, w)
                 || Contains(d, w) || Contains(e, w) || Contains(f, w)
  {
    ContainsAcross(a, '/', b, w);
    ContainsAcross(a + "/" + b, '.', c, w);
    ContainsAcross(a + "/" + b + "." + c, '-', d, w);
    ContainsAcross(a + "/" + b + "." + c + "-" + d, '.', e, w);
    ContainsAcross(a + "/" + b + "." + c + "-" + d + "." + e, '.', f, w);
  }

  /** Joining two parts at `/` keeps out the words both lack. */
  lemma TwoParts(a: string, b: string)
    ensures LacksEarlyWords(a) && LacksEarlyWords(b) ==> LacksEarlyWords(a + "/" + b)
    ensures LacksCodeWords(a) && LacksCodeWords(b) ==> LacksCodeWords(a + "/" + b)
  {
    ContainsAcross(a, '/', b, "pdf");
    ContainsAcross(a, '/', b, "spreadsheet");
    ContainsAcross(a, '/', b, "excel");
    ContainsAcross(a, '/', b, "csv");
    ContainsAcross(a, '/', b, "zip");
    ContainsAcross(a, '/', b, "rar");
    ContainsAcross(a, '/', b, "archive");
    ContainsAcross(a, '/', b, "javascript");
    ContainsAcross(a, '/', b, "json");
    ContainsAcross(a, '/', b, "html");
    ContainsAcross(a, '/', b, "css");
    ContainsAcross(a, '/', b, "xml");
  }

  /** Joining six parts that lack the earlier rules' words keeps them out. */
  lemma SixLackEarlyWords(a: string, b: string, c: string, d: string, e: string, f: string)
    requires LacksEarlyWords(a) && LacksEarlyWords(b) && LacksEarlyWords(c)
    requires LacksEarlyWords(d) && LacksEarlyWords(e) && LacksEarlyWords(f)
    ensures LacksEarlyWords(a + "/" + b + "." + c + "-" + d + "." + e + "." + f)
  {
    SixParts(a, b, c, d, e, f, "pdf");
    SixParts(a, b, c, d, e, f, "spreadsheet");
    SixParts(a, b, c, d, e, f, "excel");
    SixParts(a, b, c, d, e, f, "csv");
    SixParts(a, b, c, d, e, f, "zip");
    SixParts(a, b, c, d, e, f, "rar");
    SixParts(a, b, c, d, e, f, "archive");
  }

  // ---------------------------------------------------------------------
  // The parts
  // ---------------------------------------------------------------------

  lemma OfficeLetters()
    ensures Within("application", {'a', 'p', 'l', 'i', 'c', 't', 'o', 'n'})
    ensures Within("vnd", {'v', 'n', 'd'})
    ensures Within("openxmlformats", {'o', 'p', 'e', 'n', 'x', 'm', 'l', 'f', 'r', 'a', 't', 's'})
    ensures Within("officedocument", {'o', 'f', 'i', 'c', 'e', 'd', 'u', 'm', 'n', 't'})
  {
  }

  lemma TailLetters()
    ensures Within("wordprocessingml", {'w', 'o', 'r', 'd', 'p', 'c', 'e', 's', 'i', 'n', 'g', 'm', 'l'})
    ensures Within("document", {'d', 'o', 'c', 'u', 'm', 'e', 'n', 't'})
    ensures Within("presentationml", {'p', 'r', 'e', 's', 'n', 't', 'a', 'i', 'o', 'm', 'l'})
    ensures Within("presentation", {'p', 'r', 'e', 's', 'n', 't', 'a', 'i', 'o'})
    ensures Within("spreadsheetml", {'s', 'p', 'r', 'e', 'a', 'd', 'h', 't', 'm', 'l'})
    ensures Within("sheet", {'s', 'h', 'e', 't'})
  {
  }

  lemma OtherLetters()
    ensures Within("msword", {'m', 's', 'w', 'o', 'r', 'd'})
    ensures Within("zip", {'z', 'i', 'p'})
    ensures Within("x", {'x'})
    ensures Within("rar", {'r', 'a'})
    ensures Within("compressed", {'c', 'o', 'm', 'p', 'r', 'e', 's', 'd'})
  {
  }

  lemma TextLetters()
    ensures Within("text/plain", {'t', 'e', 'x', '/', 'p', 'l', 'a', 'i', 'n'})
    ensures Within("text/html", {'t', 'e', 'x', '/', 'h', 'm', 'l'})
    ensures Within("text/css", {'t', 'e', 'x', '/', 'c', 's'})
  {
  }

  /** The words the later lemmas find in the parts, each at its index. */
  lemma Occurrences()
    ensures Contains("openxmlformats", "xml") && Contains("spreadsheetml", "spreadsheet")
    ensures Contains("msword", "word") && Contains("zip", "zip") && Contains("rar", "rar")
    ensures Contains("text/plain", "text") && Contains("text/html", "text") && Contains("text/html", "html")
    ensures Contains("text/css", "text") && Contains("text/css", "css")
  {
    assert OccursAt("openxmlformats", "xml", 4);
    assert OccursAt("spreadsheetml", "spreadsheet", 0);
    assert OccursAt("msword", "word", 2);
    assert OccursAt("zip", "zip", 0);
    assert OccursAt("rar", "rar", 0);
    assert OccursAt("text/plain", "text", 0);
    assert OccursAt("text/html", "text", 0) && OccursAt("text/html", "html", 5);
    assert OccursAt("text/css", "text", 0) && OccursAt("text/css", "css", 5);
  }

  lemma ApplicationWords()
    ensures LacksEarlyWords("application") && LacksCodeWords("application")
  {
    var letters := {'a', 'p', 'l', 'i', 'c', 't', 'o', 'n'};
    OfficeLetters();
    Outside("application", letters, "rar", 0);
    EarlyBy("application", letters, 1, 0, 0, 1, 0, 1);
    CodeBy("application", letters, 0, 0, 0, 1, 0);
  }

  lemma VndWords()
    ensures LacksEarlyWords("vnd")
  {
    var letters := {'v', 'n', 'd'};
    OfficeLetters();
    Outside("vnd", letters, "rar", 0);
    EarlyBy("vnd", letters, 0, 0, 0, 0, 0, 0);
  }

  /** `openxmlformats` holds every letter of `rar`, but only one `r`; it holds `xml`. */
  lemma OpenxmlformatsWords()
    ensures LacksEarlyWords("openxmlformats")
    ensures Contains("openxmlformats", "xml")
  {
    OfficeLetters();
    RepeatedChar("openxmlfo", 'r', "mats", "rar", 0, 2);
    EarlyBy("openxmlformats", {'o', 'p', 'e', 'n', 'x', 'm', 'l', 'f', 'r', 'a', 't', 's'}, 1, 5, 2, 0, 0, 2);
    Occurrences();
  }

  lemma OfficedocumentWords()
    ensures LacksEarlyWords("officedocument")
  {
    var letters := {'o', 'f', 'i', 'c', 'e', 'd', 'u', 'm', 'n', 't'};
    OfficeLetters();
    Outside("officedocument", letters, "rar", 0);
    EarlyBy("officedocument", letters, 0, 0, 1, 1, 0, 0);
  }

  lemma WordprocessingmlWords()
    ensures LacksEarlyWords("wordprocessingml")
  {
    var letters := {'w', 'o', 'r', 'd', 'p', 'c', 'e', 's', 'i', 'n', 'g', 'm', 'l'};
    TailLetters();
    Outside("wordprocessingml", letters, "rar", 1);
    EarlyBy("wordprocessingml", letters, 2, 4, 1, 2, 0, 0);
  }

  lemma DocumentWords()
    ensures LacksEarlyWords("document")
  {
    var letters := {'d', 'o', 'c', 'u', 'm', 'e', 'n', 't'};
    TailLetters();
    Outside("document", letters, "rar", 0);
    EarlyBy("document", letters, 0, 0, 1, 1, 0, 0);
  }

  /** `presentationml` and `presentation` hold every letter of `rar`, but only one `r`. */
  lemma PresentationWords()
    ensures LacksEarlyWords("presentationml") && LacksEarlyWords("presentation")
  {
    TailLetters();
    RepeatedChar("p", 'r', "esentationml", "rar", 0, 2);
    EarlyBy("presentationml", {'p', 'r', 'e', 's', 'n', 't', 'a', 'i', 'o', 'm', 'l'}, 1, 5, 1, 0, 0, 2);
    RepeatedChar("p", 'r', "esentation", "rar", 0, 2);
    EarlyBy("presentation", {'p', 'r', 'e', 's', 'n', 't', 'a', 'i', 'o'}, 1, 5, 1, 0, 0, 2);
  }

  /** `spreadsheetml` holds `spreadsheet`; neither it nor `sheet` holds `pdf`. */
  lemma XlsxTailWords()
    ensures !Contains("spreadsheetml", "pdf") && !Contains("sheet", "pdf")
    ensures Contains("spreadsheetml", "spreadsheet")
  {
    TailLetters();
    Outside("spreadsheetml", {'s', 'p', 'r', 'e', 'a', 'd', 'h', 't', 'm', 'l'}, "pdf", 2);
    Outside("sheet", {'s', 'h', 'e', 't'}, "pdf", 0);
    Occurrences();
  }

  lemma MswordWords()
    ensures LacksEarlyWords("msword") && LacksCodeWords("msword")
    ensures Contains("msword", "word")
  {
    var letters := {'m', 's', 'w', 'o', 'r', 'd'};
    OtherLetters();
    Outside("msword", letters, "rar", 1);
    EarlyBy("msword", letters, 0, 1, 0, 0, 0, 0);
    CodeBy("msword", letters, 0, 0, 0, 0, 0);
    Occurrences();
  }

  /** `zip` is its own word and holds none of the pdf and spreadsheet rules' words. */
  lemma ZipPartWords()
    ensures LacksPdfSheetWords("zip") && Contains("zip", "zip")
  {
    OtherLetters();
    SheetBy("zip", {'z', 'i', 'p'}, 1, 0, 0, 0);
    Occurrences();
  }

  /** The last three parts of `application/x-rar-compressed`. */
  lemma RarPartsWords()
    ensures LacksPdfSheetWords("x") && !Contains("x", "zip")
    ensures LacksPdfSheetWords("rar") && !Contains("rar", "zip")
    ensures LacksPdfSheetWords("compressed") && !Contains("compressed", "zip")
    ensures Contains("rar", "rar")
  {
    OtherLetters();
    SheetBy("x", {'x'}, 0, 0, 0, 0);
    Outside("x", {'x'}, "zip", 0);
    SheetBy("rar", {'r', 'a'}, 0, 0, 0, 0);
    Outside("rar", {'r', 'a'}, "zip", 0);
    SheetBy("compressed", {'c', 'o', 'm', 'p', 'r', 'e', 's', 'd'}, 2, 4, 1, 2);
    Outside("compressed", {'c', 'o', 'm', 'p', 'r', 'e', 's', 'd'}, "zip", 0);
    Occurrences();
  }

  lemma PlainWords()
    ensures LacksEarlyWords("text/plain") && LacksCodeWords("text/plain")
    ensures Contains("text/plain", "text")
  {
    var letters := {'t', 'e', 'x', '/', 'p', 'l', 'a', 'i', 'n'};
    TextLetters();
    Outside("text/plain", letters, "rar", 0);
    EarlyBy("text/plain", letters, 1, 0, 2, 0, 0, 1);
    CodeBy("text/plain", letters, 0, 0, 0, 0, 1);
    Occurrences();
  }

  lemma HtmlWords()
    ensures LacksEarlyWords("text/html")
    ensures !Contains("text/html", "javascript") && !Contains("text/html", "json")
    ensures Contains("text/html", "text") && Contains("text/html", "html")
  {
    var letters := {'t', 'e', 'x', '/', 'h', 'm', 'l'};
    TextLetters();
    Outside("text/html", letters, "rar", 0);
    EarlyBy("text/html", letters, 0, 0, 2, 0, 0, 0);
    Outside("text/html", letters, "javascript", 0);
    Outside("text/html", letters, "json", 0);
    Occurrences();
  }

  lemma CssWords()
    ensures LacksEarlyWords("text/css")
    ensures !Contains("text/css", "javascript") && !Contains("text/css", "json") && !Contains("text/css", "html")
    ensures Contains("text/css", "text") && Contains("text/css", "css")
  {
    var letters := {'t', 'e', 'x', '/', 'c', 's'};
    TextLetters();
    Outside("text/css", letters, "rar", 0);
    EarlyBy("text/css", letters, 0, 1, 4, 2, 0, 0);
    Outside("text/css", letters, "javascript", 0);
    Outside("text/css", letters, "json", 0);
    Outside("text/css", letters, "html", 0);
    Occurrences();
  }
}
