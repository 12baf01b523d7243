/**
 * How `str.split()` treats arbitrary whitespace: any amount of any
 * whitespace characters between, before and after the fields, as in a line
 * such as `push  local\t3`, separates the same fields as one blank does.
 */
module Spacing {
  import opened Text

  /** Words with whitespace around and between them:
      `seps[0] + ws[0] + seps[1] + ... + ws[n-1] + seps[n]`. */
  function Spaced(seps: seq<string>, ws: seq<string>): string
    requires |seps| == |ws| + 1
  {
    if ws == [] then seps[0] else seps[0] + (ws[0] + Spaced(seps[1..], ws[1..]))
  }

  /** `Fields` undoes `Spaced` whenever the separators are whitespace and the
      inner ones are not empty (`Separators`): the fields are the maximal runs of
      non-whitespace characters, whatever whitespace (how much, and which
      characters) stands between, before and after them. */
  lemma {:induction false} FieldsOfSpaced(seps: seq<string>, ws: seq<string>)
    requires Words(ws) && Separators(seps, |ws|)
    ensures Fields(Spaced(seps, ws)) == ws
  {
    if ws == [] {
      assert seps[0] + [] == seps[0];
      FieldsLeadingSpace(seps[0], []);
      FieldsUnfold([]);
    } else {
      var rest := Spaced(seps[1..], ws[1..]);
      calc {
        Fields(Spaced(seps, ws));
        Fields(seps[0] + (ws[0] + rest));
        { SpacedStart(seps, ws); FieldsOfSpacedWord(seps[0], ws[0], rest); }
        [ws[0]] + Fields(rest);
        { SeparatorsTail(seps, ws); FieldsOfSpaced(seps[1..], ws[1..]); }
        [ws[0]] + ws[1..];
        ws;
      }
    }
  }

  /** `n + 1` whitespace separators, of which the `n - 1` inner ones are
      not empty. */
  predicate Separators(seps: seq<string>, n: nat) {
    && |seps| == n + 1
    && (forall k :: 0 <= k < |seps| ==> AllSpace(seps[k]))
    && (forall k :: 0 < k < n ==> seps[k] != [])
  }

  lemma SeparatorsTail(seps: seq<string>, ws: seq<string>)
    requires Words(ws) && ws != [] && Separators(seps, |ws|)
    ensures Words(ws[1..]) && Separators(seps[1..], |ws| - 1)
  {
    forall k | 0 <= k < |ws| - 1 ensures ws[1..][k] != [] && NoSpace(ws[1..][k]) {
      assert ws[1..][k] == ws[k + 1];
    }
    forall k | 0 <= k < |ws| ensures AllSpace(seps[1..][k]) {
      assert seps[1..][k] == seps[k + 1];
    }
    forall k | 0 < k < |ws| - 1 ensures seps[1..][k] != [] {
      assert seps[1..][k] == seps[k + 1];
    }
  }

  /** What follows the first word is empty or starts with whitespace. */
  lemma SpacedStart(seps: seq<string>, ws: seq<string>)
    requires Separators(seps, |ws|) && ws != []
    ensures var rest := Spaced(seps[1..], ws[1..]); rest == [] || IsSpace(rest[0])
  {
    var rest := Spaced(seps[1..], ws[1..]);
    if |ws| > 1 {
      assert rest == seps[1] + (ws[1] + Spaced(seps[2..], ws[2..])) by {
        assert seps[1..][1..] == seps[2..] && ws[1..][1..] == ws[2..];
      }
      assert seps[1][0] == rest[0];
    } else {
      assert rest == seps[1];
    }
  }

  /** Whitespace, a word, then nothing or whitespace: the word is the first field. */
  lemma FieldsOfSpacedWord(sp: string, w: string, rest: string)
    requires AllSpace(sp) && w != [] && NoSpace(w)
    requires rest == [] || IsSpace(rest[0])
    ensures Fields(sp + (w + rest)) == [w] + Fields(rest)
  {
    FieldsLeadingSpace(sp, w + rest);
    FieldsOfWordThenSpace(w, rest);
  }

  /** A word followed by nothing or by whitespace is the first field. */
  lemma FieldsOfWordThenSpace(w: string, rest: string)
    requires w != [] && NoSpace(w)
    requires rest == [] || IsSpace(rest[0])
    ensures Fields(w + rest) == [w] + Fields(rest)
  {
    var j := w + rest;
    FirstWordOfJoin(w, rest);
    assert j[0] == w[0];
    FieldsOfNonSpaceStart(j);
    assert j[|w|..] == rest;
  }
}
