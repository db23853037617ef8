/** Derivation of the file name a captured row is saved under: the row's
    first three cells joined by underscores with a `.pdf` suffix, filtered to
    `[A-Za-z0-9_.-]`; or, when reading the cells fails, a synthetic name
    built from the 1-based table and row numbers. */
module Filename {
  import opened Common

  /** The characters `/[^a-zA-Z0-9_\-.]/g` does not remove. */
  predicate IsAllowed(c: char) {
    ('a' <= c <= 'z') || ('A' <= c <= 'Z') || ('0' <= c <= '9') || c == '_' || c == '-' || c == '.'
  }

  predicate AllAllowed(s: string) {
    forall k :: 0 <= k < |s| ==> IsAllowed(s[k])
  }

  /** `s.replace(/[^a-zA-Z0-9_\-.]/g, '')`: drop every disallowed character. */
  function Sanitize(s: string): (r: string)
    ensures AllAllowed(r)
    ensures |r| <= |s|
  {
    if s == [] then []
    else (if IsAllowed(s[0]) then [s[0]] else []) + Sanitize(s[1..])
  }

  /** Sanitising works character by character: the kept characters keep
      their relative order and nothing is put in place of a dropped one. */
  lemma {:induction false} SanitizeAppend(a: string, b: string)
    ensures Sanitize(a + b) == Sanitize(a) + Sanitize(b)
  {
    if a == [] {
      assert a + b == b;
    } else {
      assert (a + b)[1..] == a[1..] + b;
      SanitizeAppend(a[1..], b);
    }
  }

  /** A string of allowed characters passes through unchanged. */
  lemma {:induction false} SanitizeKeepsAllowed(s: string)
    requires AllAllowed(s)
    ensures Sanitize(s) == s
  {
    if s != [] {
      SanitizeKeepsAllowed(s[1..]);
    }
  }

  /** Sanitising twice is the same as sanitising once. */
  lemma SanitizeIdempotent(s: string)
    ensures Sanitize(Sanitize(s)) == Sanitize(s)
  {
    SanitizeKeepsAllowed(Sanitize(s));
  }

  /** A disallowed character is dropped, an allowed one kept. */
  lemma SanitizeOneChar(c: char)
    ensures Sanitize([c]) == if IsAllowed(c) then [c] else []
  {
    assert [c][1..] == [];
  }

  /** `rowData.length > k ? rowData[k].getText() : "unknown"`. */
  function CellOr(cells: seq<string>, k: nat): string {
    if |cells| > k then cells[k] else "unknown"
  }

  /** The raw name `${waqfId}_${propertyId}_${district}.pdf` before cleaning. */
  function RawName(cells: seq<string>): string {
    CellOr(cells, 0) + "_" + CellOr(cells, 1) + "_" + CellOr(cells, 2) + ".pdf"
  }

  /** The cleaned name of a row whose cells could be read. */
  function RowFilename(cells: seq<string>): (name: string)
    ensures AllAllowed(name)
    ensures |name| >= 4 && name[|name| - 4..] == ".pdf"
  {
    var prefix := CellOr(cells, 0) + "_" + CellOr(cells, 1) + "_" + CellOr(cells, 2);
    assert RawName(cells) == prefix + ".pdf";
    SanitizeAppend(prefix, ".pdf");
    SanitizeKeepsAllowed(".pdf");
    Sanitize(RawName(cells))
  }

  /** Each of the first three cells is filtered on its own and takes its own
      place in the name. */
  lemma RowFilenameByCell(cells: seq<string>)
    ensures RowFilename(cells)
         == Sanitize(CellOr(cells, 0)) + "_" + Sanitize(CellOr(cells, 1)) + "_" + Sanitize(CellOr(cells, 2)) + ".pdf"
  {
    SanitizeJoin(CellOr(cells, 0), CellOr(cells, 1), CellOr(cells, 2), "_", ".pdf");
  }

  /** A missing third cell is "unknown" in the name. */
  lemma MissingCellIsUnknown(cells: seq<string>)
    requires |cells| < 3
    ensures RowFilename(cells) == Sanitize(CellOr(cells, 0)) + "_" + Sanitize(CellOr(cells, 1)) + "_" + "unknown" + ".pdf"
  {
    RowFilenameByCell(cells);
    SanitizeKeepsAllowed("unknown");
  }

  /** Filtering a joined name filters each part on its own. */
  lemma SanitizeJoin(a: string, b: string, c: string, sep: string, ext: string)
    requires AllAllowed(sep) && AllAllowed(ext)
    ensures Sanitize(a + sep + b + sep + c + ext) == Sanitize(a) + sep + Sanitize(b) + sep + Sanitize(c) + ext
  {
    SanitizeKeepsAllowed(sep);
    SanitizeKeepsAllowed(ext);
    SanitizeAppend(a, sep);
    SanitizeAppend(a + sep, b);
    SanitizeAppend(a + sep + b, sep);
    SanitizeAppend(a + sep + b + sep, c);
    SanitizeAppend(a + sep + b + sep + c, ext);
  }

  /** Cells made only of allowed characters appear verbatim in the name. */
  lemma CleanCellsKeptVerbatim(cells: seq<string>)
    requires |cells| >= 3
    requires AllAllowed(cells[0]) && AllAllowed(cells[1]) && AllAllowed(cells[2])
    ensures RowFilename(cells) == cells[0] + "_" + cells[1] + "_" + cells[2] + ".pdf"
  {
    var raw := RawName(cells);
    assert AllAllowed(raw) by {
      assert raw == cells[0] + "_" + cells[1] + "_" + cells[2] + ".pdf";
      forall k | 0 <= k < |raw| ensures IsAllowed(raw[k]) {
        if k < |cells[0]| {
          assert raw[k] == cells[0][k];
        } else if k == |cells[0]| {
        } else if k < |cells[0]| + 1 + |cells[1]| {
          assert raw[k] == cells[1][k - |cells[0]| - 1];
        } else if k == |cells[0]| + 1 + |cells[1]| {
        } else if k < |cells[0]| + |cells[1]| + |cells[2]| + 2 {
          assert raw[k] == cells[2][k - |cells[0]| - |cells[1]| - 2];
        }
      }
    }
    SanitizeKeepsAllowed(raw);
  }

  /** An allowed prefix survives and one disallowed character after it is dropped. */
  lemma SanitizeDropsOne(prefix: string, c: char, rest: string)
    requires AllAllowed(prefix) && !IsAllowed(c)
    ensures Sanitize(prefix + [c] + rest) == prefix + Sanitize(rest)
  {
    SanitizeKeepsAllowed(prefix);
    SanitizeOneChar(c);
    SanitizeAppend(prefix, [c]);
    assert Sanitize(prefix + [c]) == prefix;
    SanitizeAppend(prefix + [c], rest);
  }

  /** The cells "W#1", "P/2", "North" give W1_P2_North.pdf. */
  lemma FilenameExample()
    ensures RowFilename(["W#1", "P/2", "North"]) == "W1_P2_North.pdf"
  {
    var cells := ["W#1", "P/2", "North"];
    assert RawName(cells) == "W" + ['#'] + ("1_P" + ['/'] + "2_North.pdf");
    SanitizeDropsTwo("W", '#', "1_P", '/', "2_North.pdf");
    assert "W" + ("1_P" + "2_North.pdf") == "W1_P2_North.pdf";
  }

  /** Two disallowed characters between allowed runs are both dropped. */
  lemma SanitizeDropsTwo(a: string, c: char, b: string, d: char, tail: string)
    requires AllAllowed(a) && AllAllowed(b) && AllAllowed(tail)
    requires !IsAllowed(c) && !IsAllowed(d)
    ensures Sanitize(a + [c] + (b + [d] + tail)) == a + (b + tail)
  {
    SanitizeKeepsAllowed(tail);
    SanitizeDropsOne(b, d, tail);
    assert Sanitize(b + [d] + tail) == b + tail;
    SanitizeDropsOne(a, c, b + [d] + tail);
  }

  /** A row without cells is named unknown_unknown_unknown.pdf. */
  lemma MissingCellsExample()
    ensures RowFilename([]) == "unknown_unknown_unknown.pdf"
  {
    var name := "unknown_unknown_unknown.pdf";
    assert RawName([]) == name;
    assert AllAllowed(name);
    SanitizeKeepsAllowed(name);
  }

  /** `table${tableIdx+1}_row${index+1}.pdf`, used when the cells cannot be read. */
  function FallbackFilename(tableIdx: nat, index: nat): (name: string)
    ensures AllAllowed(name)
    ensures |name| >= 15 && name[..5] == "table" && name[|name| - 4..] == ".pdf"
  {
    var t, r := NatToString(tableIdx + 1), NatToString(index + 1);
    var name := "table" + t + "_row" + r + ".pdf";
    assert forall k :: 5 <= k < 5 + |t| ==> name[k] == t[k - 5];
    assert forall k :: 9 + |t| <= k < 9 + |t| + |r| ==> name[k] == r[k - 9 - |t|];
    name
  }

  /** The fallback name carries the 1-based table and row numbers, in decimal. */
  lemma FallbackFilenameNumbers(tableIdx: nat, index: nat)
    ensures exists t: string, r: string ::
              && AllDigits(t) && AllDigits(r) && |t| >= 1 && |r| >= 1 && t[0] != '0' && r[0] != '0'
              && DecimalValue(t) == tableIdx + 1 && DecimalValue(r) == index + 1
              && FallbackFilename(tableIdx, index) == "table" + t + "_row" + r + ".pdf"
  {
    var t, r := NatToString(tableIdx + 1), NatToString(index + 1);
    NatToStringValue(tableIdx + 1);
    NatToStringValue(index + 1);
    assert FallbackFilename(tableIdx, index) == "table" + t + "_row" + r + ".pdf";
  }

  /** Distinct rows of one table get distinct fallback names. */
  lemma FallbackDistinguishesRows(tableIdx: nat, i: nat, j: nat)
    requires i != j
    ensures FallbackFilename(tableIdx, i) != FallbackFilename(tableIdx, j)
  {
    NatToStringInjective(i + 1, j + 1);
    var t := NatToString(tableIdx + 1);
    var a, b := NatToString(i + 1), NatToString(j + 1);
    var x, y := FallbackFilename(tableIdx, i), FallbackFilename(tableIdx, j);
    assert x == ("table" + t + "_row") + a + ".pdf";
    assert y == ("table" + t + "_row") + b + ".pdf";
    if |a| == |b| {
      assert x[9 + |t|..9 + |t| + |a|] == a;
      assert y[9 + |t|..9 + |t| + |b|] == b;
    } else {
      assert |x| != |y|;
    }
  }

  lemma {:induction false} NatToStringInjective(m: nat, n: nat)
    requires m != n
    ensures NatToString(m) != NatToString(n)
    decreases m + n
  {
    var a, b := NatToString(m), NatToString(n);
    if m >= 10 && n >= 10 {
      if m / 10 != n / 10 {
        NatToStringInjective(m / 10, n / 10);
        assert a[..|a| - 1] == NatToString(m / 10) && b[..|b| - 1] == NatToString(n / 10);
      } else {
        assert a[|a| - 1] == DigitChar(m % 10) && b[|b| - 1] == DigitChar(n % 10);
      }
    } else if m >= 10 || n >= 10 {
      assert |a| != |b|;
    }
  }
}
