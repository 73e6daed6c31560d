/**
 * The file list as `src/components/FileManager.tsx` shows it: the search
 * filter over the listed files, the heading and found-count line above the
 * list, and the choice between the spinner, the empty state and the cards.
 */
module Search {
  import opened Common
  import opened Text
  import opened FileTypes

  /** `file.name.toLowerCase().includes(query)`, for a query already lower-cased. */
  predicate NameMatches(file: FileItem, query: string)
  {
    Contains(ToLower(file.name), query)
  }

  /**
   * `files.filter(...)` with the lower-cased query: the matching files, in
   * their order, each as often as it occurs in the list.
   */
  function KeepMatching(files: seq<FileItem>, query: string): (r: seq<FileItem>)
    ensures |r| <= |files|
    ensures forall f :: f in r <==> f in files && NameMatches(f, query)
  {
    if files == [] then []
    else if NameMatches(files[0], query) then [files[0]] + KeepMatching(files[1..], query)
    else KeepMatching(files[1..], query)
  }

  /**
   * `filteredFiles`: a query that trims to nothing leaves the list as it is;
   * any other query, lower-cased but not trimmed, keeps the files whose
   * lower-cased name contains it.
   */
  function FilterFiles(files: seq<FileItem>, searchQuery: string): (r: seq<FileItem>)
    ensures IsBlank(searchQuery) ==> r == files
    ensures !IsBlank(searchQuery) ==>
              forall f :: f in r <==> f in files && Contains(ToLower(f.name), ToLower(searchQuery))
  {
    TrimEmptyIffBlank(searchQuery);
    if Trim(searchQuery) == [] then files else KeepMatching(files, ToLower(searchQuery))
  }

  /** A matching file is kept as often as it is listed; any other file not at all. */
  lemma {:induction false} KeepCounts(files: seq<FileItem>, query: string, f: FileItem)
    ensures multiset(KeepMatching(files, query))[f] == if NameMatches(f, query) then multiset(files)[f] else 0
  {
    if files != [] {
      KeepCounts(files[1..], query, f);
      assert files == [files[0]] + files[1..];
      assert multiset(files) == multiset{files[0]} + multiset(files[1..]);
      if NameMatches(files[0], query) {
        var r := KeepMatching(files[1..], query);
        assert multiset([files[0]] + r) == multiset{files[0]} + multiset(r);
      }
    }
  }

  /** The filtered list holds each matching file as often as the list does, and no other file. */
  lemma FilterCounts(files: seq<FileItem>, searchQuery: string, f: FileItem)
    requires !IsBlank(searchQuery)
    ensures multiset(FilterFiles(files, searchQuery))[f]
            == if Contains(ToLower(f.name), ToLower(searchQuery)) then multiset(files)[f] else 0
  {
    KeepCounts(files, ToLower(searchQuery), f);
  }

  /** The filter works file by file: filtering a concatenation concatenates the results. */
  lemma {:induction false} KeepAppend(a: seq<FileItem>, b: seq<FileItem>, query: string)
    ensures KeepMatching(a + b, query) == KeepMatching(a, query) + KeepMatching(b, query)
    decreases |a|
  {
    if a == [] {
      assert a + b == b;
    } else {
      assert (a + b)[0] == a[0] && (a + b)[1..] == a[1..] + b;
      KeepAppend(a[1..], b, query);
    }
  }

  /** One file is kept exactly when its name matches. */
  lemma KeepSingle(f: FileItem, query: string)
    ensures KeepMatching([f], query) == if NameMatches(f, query) then [f] else []
  {
    assert [f][1..] == [];
  }

  /** So the filtered list of `a + b` is that of `a` followed by that of `b`, for every query. */
  lemma FilterAppend(a: seq<FileItem>, b: seq<FileItem>, searchQuery: string)
    ensures FilterFiles(a + b, searchQuery) == FilterFiles(a, searchQuery) + FilterFiles(b, searchQuery)
  {
    if !IsBlank(searchQuery) {
      KeepAppend(a, b, ToLower(searchQuery));
    }
  }

  /** A matching file listed twice is kept twice. */
  lemma DuplicatesKept(f: FileItem, searchQuery: string)
    requires !IsBlank(searchQuery) && Contains(ToLower(f.name), ToLower(searchQuery))
    ensures FilterFiles([f, f], searchQuery) == [f, f]
  {
    KeepAppend([f], [f], ToLower(searchQuery));
    KeepSingle(f, ToLower(searchQuery));
    assert [f] + [f] == [f, f];
  }

  /** The kept files are the list with some files dropped and the rest in their order. */
  lemma {:induction false} KeepIsSublist(files: seq<FileItem>, query: string)
    ensures IsSublist(KeepMatching(files, query), files)
  {
    if files == [] {
      SublistEmpty(files);
    } else {
      KeepIsSublist(files[1..], query);
      assert files == [files[0]] + files[1..];
      if NameMatches(files[0], query) {
        SublistKeep(KeepMatching(files[1..], query), files[1..], files[0]);
      } else {
        SublistSkip(KeepMatching(files[1..], query), files[1..], files[0]);
      }
    }
  }

  lemma FilterIsSublist(files: seq<FileItem>, searchQuery: string)
    ensures IsSublist(FilterFiles(files, searchQuery), files)
  {
    if IsBlank(searchQuery) {
      var idx := seq(|files|, i requires 0 <= i < |files| => i);
      assert Embeds(files, files, idx);
    } else {
      KeepIsSublist(files, ToLower(searchQuery));
    }
  }

  /** Filtering what the filter kept changes nothing. */
  lemma {:induction false} KeepIdempotent(files: seq<FileItem>, query: string)
    ensures KeepMatching(KeepMatching(files, query), query) == KeepMatching(files, query)
  {
    if files != [] {
      KeepIdempotent(files[1..], query);
    }
  }

  lemma FilterIdempotent(files: seq<FileItem>, searchQuery: string)
    ensures FilterFiles(FilterFiles(files, searchQuery), searchQuery) == FilterFiles(files, searchQuery)
  {
    if !IsBlank(searchQuery) {
      KeepIdempotent(files, ToLower(searchQuery));
    }
  }

  /** Lower-casing leaves white space alone, so it does not make a query blank or not blank. */
  lemma BlankIgnoresCase(s: string)
    ensures IsBlank(ToLower(s)) <==> IsBlank(s)
  {
    forall i | 0 <= i < |s|
      ensures IsJsWhitespace(ToLower(s)[i]) <==> IsJsWhitespace(s[i])
    {
      assert ToLower(s)[i] == LowerChar(s[i]);
    }
  }

  /** Two queries that differ only in case select the same files. */
  lemma FilterIgnoresQueryCase(files: seq<FileItem>, q1: string, q2: string)
    requires ToLower(q1) == ToLower(q2)
    ensures FilterFiles(files, q1) == FilterFiles(files, q2)
  {
    BlankIgnoresCase(q1);
    BlankIgnoresCase(q2);
    TrimEmptyIffBlank(q1);
    TrimEmptyIffBlank(q2);
    if IsBlank(q1) {
      assert FilterFiles(files, q1) == files == FilterFiles(files, q2);
    } else {
      assert FilterFiles(files, q1) == KeepMatching(files, ToLower(q1));
      assert FilterFiles(files, q2) == KeepMatching(files, ToLower(q2));
    }
  }

  /** Two lists whose names agree position by position, up to case. */
  predicate SameNamesUpToCase(a: seq<FileItem>, b: seq<FileItem>)
  {
    |a| == |b| && forall i :: 0 <= i < |a| ==> ToLower(a[i].name) == ToLower(b[i].name)
  }

  /** Such lists keep equally many files, one position at a time. */
  lemma {:induction false} SameKeptCount(a: seq<FileItem>, b: seq<FileItem>, searchQuery: string)
    requires SameNamesUpToCase(a, b)
    ensures |FilterFiles(a, searchQuery)| == |FilterFiles(b, searchQuery)|
    decreases |a|
  {
    if a != [] {
      assert a == [a[0]] + a[1..] && b == [b[0]] + b[1..];
      FilterAppend([a[0]], a[1..], searchQuery);
      FilterAppend([b[0]], b[1..], searchQuery);
      if !IsBlank(searchQuery) {
        KeepSingle(a[0], ToLower(searchQuery));
        KeepSingle(b[0], ToLower(searchQuery));
      }
      assert SameNamesUpToCase(a[1..], b[1..]) by {
        forall i | 0 <= i < |a[1..]|
          ensures ToLower(a[1..][i].name) == ToLower(b[1..][i].name)
        {
          assert a[1..][i] == a[i + 1] && b[1..][i] == b[i + 1];
        }
      }
      SameKeptCount(a[1..], b[1..], searchQuery);
    }
  }

  /**
   * Renaming files to other spellings of the same names in other case does
   * not change which files are kept: the file at each position is kept in
   * one list exactly when the file there is kept in the other, and every
   * prefix keeps equally many, so the kept positions are the same.
   */
  lemma FilterIgnoresNameCase(a: seq<FileItem>, b: seq<FileItem>, searchQuery: string)
    requires SameNamesUpToCase(a, b)
    ensures forall i :: 0 <= i < |a| ==> (a[i] in FilterFiles(a, searchQuery) <==> b[i] in FilterFiles(b, searchQuery))
    ensures forall n :: 0 <= n <= |a| ==> |FilterFiles(a[..n], searchQuery)| == |FilterFiles(b[..n], searchQuery)|
  {
    forall n | 0 <= n <= |a|
      ensures |FilterFiles(a[..n], searchQuery)| == |FilterFiles(b[..n], searchQuery)|
    {
      assert SameNamesUpToCase(a[..n], b[..n]) by {
        forall i | 0 <= i < n
          ensures ToLower(a[..n][i].name) == ToLower(b[..n][i].name)
        {
          assert a[..n][i] == a[i] && b[..n][i] == b[i];
        }
      }
      SameKeptCount(a[..n], b[..n], searchQuery);
    }
  }

  /** A single file is kept by a query that is not blank and occurs in its lower-cased name. */
  lemma SingleFileKept(f: FileItem, searchQuery: string)
    requires !IsBlank(searchQuery) && Contains(ToLower(f.name), ToLower(searchQuery))
    ensures FilterFiles([f], searchQuery) == [f]
  {
    TrimEmptyIffBlank(searchQuery);
    assert [f][1..] == [];
  }

  /** Literal lower-casing facts, kept apart so that `ReportExample` need not unfold them. */
  lemma ReportLetters()
    ensures ToLower("Report.PDF") == "report.pdf"
    ensures ToLower("pdf") == "pdf" && ToLower("PDF") == "pdf"
    ensures !IsBlank("pdf") && !IsBlank("PDF")
  {
    assert !IsJsWhitespace("pdf"[0]) && !IsJsWhitespace("PDF"[0]);
  }

  /** `Report.PDF` is found by the query `pdf`, and by `PDF`. */
  lemma ReportExample(f: FileItem)
    requires f.name == "Report.PDF"
    ensures FilterFiles([f], "pdf") == [f] && FilterFiles([f], "PDF") == [f]
  {
    ReportLetters();
    assert OccursAt("report.pdf", "pdf", 7);
    SingleFileKept(f, "pdf");
    SingleFileKept(f, "PDF");
  }

  /** The query is not trimmed once it is not blank: ` pdf` needs the space before `pdf`. */
  lemma UntrimmedQueryExample(f: FileItem)
    requires f.name == "report.pdf"
    ensures FilterFiles([f], " pdf") == []
  {
    assert !IsBlank(" pdf") by { assert !IsJsWhitespace(" pdf"[1]); }
    assert ToLower(" pdf") == " pdf";
    MissingChar(ToLower(f.name), " pdf", ' ') by {
      assert ToLower(f.name) == "report.pdf";
    }
  }

  // ---------------------------------------------------------------------
  // What is shown above and in place of the list
  // ---------------------------------------------------------------------

  /** The heading: any non-empty query, even white space, switches it. */
  function Heading(searchQuery: string): (r: string)
    ensures r == "Search results" <==> searchQuery != ""
    ensures r == "Your Files" <==> searchQuery == ""
  {
    if searchQuery != "" then "Search results" else "Your Files"
  }

  /** `${n} file${n !== 1 ? 's' : ''} found`. */
  function FoundLabel(n: nat): (r: string)
  {
    Decimal(n) + " file" + (if n != 1 then "s" else "") + " found"
  }

  /** The count line, shown only while the query is not empty. */
  function FoundLine(searchQuery: string, filtered: seq<FileItem>): (r: Option<string>)
    ensures r.Some? <==> searchQuery != ""
  {
    if searchQuery != "" then Some(FoundLabel(|filtered|)) else None
  }

  /**
   * The label starts with the count in decimal, which reads back to the
   * count, and goes on with `file found` for one file and `files found`
   * otherwise.
   */
  lemma FoundLabelReadsBack(n: nat)
    ensures var d := |Decimal(n)|;
            && d < |FoundLabel(n)|
            && AllDigits(FoundLabel(n)[..d]) && DigitsValue(FoundLabel(n)[..d]) == n
            && (FoundLabel(n)[d..] == " file found" <==> n == 1)
            && (FoundLabel(n)[d..] == " files found" <==> n != 1)
  {
    var d := |Decimal(n)|;
    var tail := " file" + (if n != 1 then "s" else "") + " found";
    assert FoundLabel(n) == Decimal(n) + tail;
    assert FoundLabel(n)[..d] == Decimal(n) && FoundLabel(n)[d..] == tail;
    DecimalRoundTrip(n);
    if n == 1 {
      assert tail != " files found" by { assert |tail| != |" files found"|; }
    } else {
      assert tail != " file found" by { assert |tail| != |" file found"|; }
    }
  }

  /** A query of spaces shows the search heading and count over the whole, unfiltered list. */
  lemma BlankQueryExample(files: seq<FileItem>)
    ensures Heading("  ") == "Search results"
    ensures FilterFiles(files, "  ") == files
    ensures FoundLine("  ", FilterFiles(files, "  ")) == Some(FoundLabel(|files|))
  {
    assert IsBlank("  ") by { assert "  "[0] == ' ' && "  "[1] == ' '; }
  }

  /** One card: the file it shows and the layout it is drawn in. */
  datatype Card = Card(file: FileItem, viewMode: ViewMode)

  /** What fills the list area. */
  datatype ListArea = Spinner | EmptyState | Cards(cards: seq<Card>)

  /** The spinner while loading, the empty state for an empty result, else one card per file. */
  function RenderList(loading: bool, filtered: seq<FileItem>, viewMode: ViewMode): (r: ListArea)
    ensures r == Spinner <==> loading
    ensures r == EmptyState <==> !loading && filtered == []
    ensures r.Cards? ==> |r.cards| == |filtered| > 0
    ensures r.Cards? ==> forall i :: 0 <= i < |filtered| ==> r.cards[i] == Card(filtered[i], viewMode)
  {
    if loading then Spinner
    else if |filtered| == 0 then EmptyState
    else Cards(seq(|filtered|, i requires 0 <= i < |filtered| => Card(filtered[i], viewMode)))
  }
}
