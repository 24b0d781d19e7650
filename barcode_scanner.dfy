/**
 * The barcode scanner panel of the client: a text input and a history of
 * scans, newest first. The time of a scan is passed in, as the clock is
 * outside the model.
 */
module BarcodeScanner {
  import Js

  datatype ScanEntry = ScanEntry(code: string, name: string, timestamp: string)

  /** The placeholder product name of a code: "Product " and the last four characters, or all of them when fewer. */
  function ProductName(code: string): (r: string)
    ensures |r| == 8 + (if |code| < 4 then |code| else 4)
    ensures r[..8] == "Product "
    ensures r[8..] == code[|code| - (|r| - 8)..]
  {
    Js.SliceLast(code, 4);
    "Product " + Js.SliceFrom(code, -4)
  }

  /** The number shown in the first column of history row `idx`. */
  function RowNumber(history: seq<ScanEntry>, idx: nat): (n: int)
    ensures idx < |history| ==> 1 <= n <= |history|
    ensures idx == 0 ==> n == |history|
  {
    |history| - idx
  }

  /** Rows are numbered from the history length down to 1: the newest row has the highest number and no two rows share one. */
  lemma RowNumbersRunDown(history: seq<ScanEntry>, i: nat, j: nat)
    requires i < j < |history|
    ensures RowNumber(history, 0) == |history|
    ensures RowNumber(history, |history| - 1) == 1
    ensures 1 <= RowNumber(history, j) < RowNumber(history, i) <= |history|
  {
  }

  /** After a scan the new entry takes the next number and every older entry keeps its own. */
  lemma ScanKeepsNumbers(history: seq<ScanEntry>, e: ScanEntry, idx: nat)
    requires idx < |history|
    ensures RowNumber([e] + history, 0) == |history| + 1
    ensures ([e] + history)[idx + 1] == history[idx]
    ensures RowNumber([e] + history, idx + 1) == RowNumber(history, idx)
  {
  }

  /** The component's state. */
  class Scanner {
    var barcode: string
    var scanHistory: seq<ScanEntry>

    constructor ()
      ensures barcode == "" && scanHistory == []
    {
      barcode := "";
      scanHistory := [];
    }

    /** The change handler of the input. */
    method SetBarcode(s: string)
      modifies this`barcode
      ensures barcode == s
    {
      barcode := s;
    }

    /** `handleScan` at the clock reading `timestamp`: a blank input changes nothing; otherwise one entry with the raw input goes first and the input clears. */
    method HandleScan(timestamp: string) returns (scanned: bool)
      modifies this
      ensures scanned <==> !Js.Blank(old(barcode))
      ensures !scanned ==> barcode == old(barcode) && scanHistory == old(scanHistory)
      ensures scanned ==>
                && scanHistory == [ScanEntry(old(barcode), ProductName(old(barcode)), timestamp)] + old(scanHistory)
                && scanHistory[1..] == old(scanHistory)
                && barcode == ""
    {
      if Js.Blank(barcode) {
        return false;
      }
      var item := ScanEntry(barcode, ProductName(barcode), timestamp);
      scanHistory := [item] + scanHistory;
      barcode := "";
      scanned := true;
    }
  }

  /** A whitespace-only input is blank, and an input with a digit inside surrounding spaces is not. */
  lemma BlankInputExamples()
    ensures Js.Blank(" \t ")
    ensures !Js.Blank("  12345 ")
  {
    assert forall i :: 0 <= i < |" \t "| ==> Js.IsWhitespace(" \t "[i]);
    assert !Js.IsWhitespace("  12345 "[2]);
  }

  /** The accepted input "  12345 " is named after its last four characters, trailing space included; a short code is used whole. */
  lemma ScanInputExamples()
    ensures ProductName("  12345 ") == "Product 345 "
    ensures ProductName("42") == "Product 42"
  {
  }
}
