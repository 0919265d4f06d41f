/** The breakpoint table of the TLSH length byte. */
module TlshBreakpoints {
  /** Ten breakpoints a row. */
  const TOPVAL_ROWS: seq<seq<nat>> := [
    [1, 2, 3, 5, 7, 11, 17, 25, 38, 57],
    [86, 129, 194, 291, 437, 656, 854, 1110, 1443, 1876],
    [2439, 3171, 3475, 3823, 4205, 4626, 5088, 5597, 6157, 6772],
    [7450, 8195, 9014, 9916, 10907, 11998, 13198, 14518, 15970, 17567],
    [19323, 21256, 23382, 25720, 28292, 31121, 34233, 37656, 41422, 45564],
    [50121, 55133, 60646, 66711, 73382, 80721, 88793, 97672, 107439, 118183],
    [130002, 143002, 157302, 173032, 190335, 209369, 230306, 253337, 278670, 306538],
    [337191, 370911, 408002, 448802, 493682, 543050, 597356, 657091, 722800, 795081],
    [874589, 962048, 1058252, 1164078, 1280486, 1408534, 1549388, 1704327, 1874759, 2062236],
    [2268459, 2495305, 2744836, 3019320, 3321252, 3653374, 4018711, 4420582, 4862641, 5348905],
    [5883796, 6472176, 7119394, 7831333, 8614467, 9475909, 10423501, 11465851, 12612437, 13873681],
    [15261050, 16787154, 18465870, 20312458, 22343706, 24578077, 27035886, 29739474, 32713425, 35984770],
    [39583245, 43541573, 47895730, 52685306, 57953837, 63749221, 70124148, 77136564, 84850228, 93335252],
    [102668779, 112935659, 124229227, 136652151, 150317384, 165349128, 181884040, 200072456, 220079703, 242087671],
    [266296456, 292926096, 322218735, 354440623, 389884688, 428873168, 471760495, 518936559, 570830240, 627913311],
    [690704607, 759775136, 835752671, 919327967, 1011260767, 1112386880, 1223623232, 1345985727, 1480584256,
     1628642751],
    [1791507135, 1970657856, 2167723648, 2384496256, 2622945920, 2885240448, 3173764736, 3491141248, 3840255616,
     4224281216]
  ]

  predicate RowsIncrease(rows: seq<seq<nat>>) {
    && |rows| == 17
    && (forall r :: 0 <= r < 17 ==> |rows[r]| == 10)
    && (forall r :: 0 <= r < 17 ==> RowIncreases(rows[r]))
    && (forall r :: 0 <= r < 16 ==> rows[r][9] < rows[r + 1][0])
  }

  predicate RowIncreases(row: seq<nat>)
    requires |row| == 10
  {
    && row[0] < row[1] < row[2] < row[3] < row[4]
    && row[4] < row[5] < row[6] < row[7] < row[8] < row[9]
  }

  lemma {:induction false} TopvalRowsIncrease()
    ensures RowsIncrease(TOPVAL_ROWS) && TOPVAL_ROWS[0][0] == 1
  {
  }

  function TopVal(): (t: seq<nat>)
    ensures |t| == 170 && t[0] == 1 && forall i :: 0 <= i < 169 ==> t[i] < t[i + 1]
  {
    TopvalRowsIncrease();
    FlattenTens(TOPVAL_ROWS)
  }

  lemma {:induction false} RowStep(row: seq<nat>, j: nat)
    requires |row| == 10 && RowIncreases(row) && j < 9
    ensures row[j] < row[j + 1]
  {
  }

  /** One place further is the next in the row or the first of the next row. */
  lemma {:induction false} NextPlace(i: nat)
    ensures if i % 10 == 9 then (i + 1) / 10 == i / 10 + 1 && (i + 1) % 10 == 0
            else (i + 1) / 10 == i / 10 && (i + 1) % 10 == i % 10 + 1
  {
  }

  lemma {:induction false} FlatStep(rows: seq<seq<nat>>, i: nat)
    requires RowsIncrease(rows) && i < 169
    ensures (i + 1) / 10 < 17 && rows[i / 10][i % 10] < rows[(i + 1) / 10][(i + 1) % 10]
  {
    NextPlace(i);
    if i % 10 != 9 {
      RowStep(rows[i / 10], i % 10);
    }
  }

  function FlattenTens(rows: seq<seq<nat>>): (t: seq<nat>)
    requires RowsIncrease(rows)
    ensures |t| == 170 && t[0] == rows[0][0] && forall i :: 0 <= i < 169 ==> t[i] < t[i + 1]
  {
    var t := seq(170, k requires 0 <= k < 170 => rows[k / 10][k % 10]);
    assert forall i :: 0 <= i < 169 ==> t[i] < t[i + 1] by {
      forall i | 0 <= i < 169 ensures t[i] < t[i + 1] {
        FlatStep(rows, i);
      }
    }
    t
  }
}

/** The length byte of a TLSH digest: a bisection over a fixed table of breakpoints. */
module TlshLength {

  const TABLE_SIZE := 170

  /** A strictly increasing breakpoint table that starts at 1. */
  ghost predicate IsBreakpoints(t: seq<nat>) {
    |t| == TABLE_SIZE && t[0] == 1 && forall i :: 0 <= i < TABLE_SIZE - 1 ==> t[i] < t[i + 1]
  }

  /** r is the least index whose breakpoint is at least len, or the last one beyond the table. */
  ghost predicate IsBucketOf(t: seq<nat>, len: nat, r: nat)
    requires |t| == TABLE_SIZE
  {
    && r < TABLE_SIZE
    && (forall i :: 0 <= i < r ==> t[i] < len)
    && (len <= t[r] || r == TABLE_SIZE - 1)
  }

  lemma {:induction false} Increasing(t: seq<nat>, i: nat, j: nat)
    requires IsBreakpoints(t) && i <= j < TABLE_SIZE
    ensures t[i] <= t[j] && (i < j ==> t[i] < t[j])
    decreases j - i
  {
    if i < j {
      Increasing(t, i + 1, j);
    }
  }

  /** Linear search, the specification of the bisection. */
  function CaptureFrom(t: seq<nat>, len: nat, n: nat): (r: nat)
    requires |t| == TABLE_SIZE && n < TABLE_SIZE && forall i :: 0 <= i < n ==> t[i] < len
    ensures IsBucketOf(t, len, r)
    decreases TABLE_SIZE - n
  {
    if len <= t[n] || n == TABLE_SIZE - 1 then n else CaptureFrom(t, len, n + 1)
  }

  function Capture(t: seq<nat>, len: nat): (r: nat)
    requires |t| == TABLE_SIZE
    ensures IsBucketOf(t, len, r)
  {
    CaptureFrom(t, len, 0)
  }

  /** The length byte never decreases as the length grows, and is unique. */
  lemma {:induction false} BucketMonotone(t: seq<nat>, len1: nat, r1: nat, len2: nat, r2: nat)
    requires |t| == TABLE_SIZE && IsBucketOf(t, len1, r1) && IsBucketOf(t, len2, r2)
    requires len1 <= len2
    ensures r1 <= r2
  {
  }

  /** The values top can take while bottom is still 0, by halving from 170. Because 1 is not
      among them the search never sits on (0, 1), whose midpoint 0 would be returned unchecked. */
  ghost predicate LeftEdge(top: int) {
    top in {170, 84, 41, 19, 8, 3, 0}
  }

  /** The bisection. It is handed any 32-bit length and stays inside the table. */
  method LCapturing(t: seq<nat>, len: nat) returns (r: nat)
    requires IsBreakpoints(t)
    ensures IsBucketOf(t, len, r) && r == Capture(t, len)
  {
    var bottom, top, idx := 0, TABLE_SIZE, 85;
    ghost var want := Capture(t, len);
    if len > t[TABLE_SIZE - 1] {
      forall i | 0 <= i < TABLE_SIZE - 1 ensures t[i] < len {
        Increasing(t, i, TABLE_SIZE - 1);
      }
      return TABLE_SIZE - 1;
    }
    while true
      invariant bottom <= want <= top <= TABLE_SIZE && bottom < TABLE_SIZE
      invariant idx == (bottom + top) / 2
      invariant bottom == 0 ==> LeftEdge(top)
      decreases top - bottom
    {
      if idx == 0 {
        return idx;
      }
      if len <= t[idx] && len > t[idx - 1] {
        forall i | 0 <= i < idx ensures t[i] < len {
          Increasing(t, i, idx - 1);
        }
        return idx;
      }
      if want < idx {
        Increasing(t, want, idx - 1);
      } else if idx < want {
        assert t[idx] < len;
      }
      if len < t[idx] {
        top := idx - 1;
      } else {
        bottom := idx + 1;
      }
      idx := (bottom + top) / 2;
    }
  }
}
