/** The pure helpers of the simple commands: MAC-address normalisation and
    the manufacturer lookup of `MacToDev`, and the field selection and
    label padding of `GeoIP`. Letter case is ASCII case. */
module SimpleCommands {
  import opened Wrappers

  // ---------------------------------------------------------------------
  // MAC addresses

  predicate IsHexDigit(c: char)
  {
    '0' <= c <= '9' || 'a' <= c <= 'f' || 'A' <= c <= 'F'
  }

  /** A digit or an upper-case hex letter. */
  predicate IsUpperHexDigit(c: char)
  {
    '0' <= c <= '9' || 'A' <= c <= 'F'
  }

  /** `str.upper` on one character. */
  function Upper(c: char): char
  {
    if 'a' <= c <= 'z' then (c as int - 'a' as int + 'A' as int) as char else c
  }

  function UpperString(s: string): (r: string)
    ensures |r| == |s| && forall i :: 0 <= i < |s| ==> r[i] == Upper(s[i])
  {
    if s == [] then [] else [Upper(s[0])] + UpperString(s[1..])
  }

  /** `re.sub(r'[^a-fA-F0-9]', '', s)`: the hex digits of `s`, in order. */
  function CleanHex(s: string): (r: string)
    ensures |r| <= |s|
    ensures forall i :: 0 <= i < |r| ==> IsHexDigit(r[i])
  {
    if s == [] then []
    else if IsHexDigit(s[0]) then [s[0]] + CleanHex(s[1..])
    else CleanHex(s[1..])
  }

  /** The exception `_normalize_mac` raises. */
  datatype MacError = InvalidMac

  /** The normal form of a MAC prefix: three groups of two upper-case hex
      digits separated by '-'. */
  predicate IsNormalMac(m: string)
  {
    |m| == 8 && m[2] == '-' && m[5] == '-'
    && forall i :: 0 <= i < 8 && i != 2 && i != 5 ==> IsUpperHexDigit(m[i])
  }

  /** Position in the normal form of the `i`-th of its six hex digits. */
  function DigitPosition(i: nat): nat
  {
    i + i / 2
  }

  /** `_normalize_mac`: strip everything but hex digits, refuse fewer than
      six, and write the first six as `XX-XX-XX` in upper case. */
  function NormalizeMac(mac: string): (r: Result<string, MacError>)
    ensures r.Failure? <==> |CleanHex(mac)| < 6
    ensures r.Success? ==>
      IsNormalMac(r.value)
      && forall i :: 0 <= i < 6 ==> r.value[DigitPosition(i)] == Upper(CleanHex(mac)[i])
  {
    var cleaned := CleanHex(mac);
    if |cleaned| < 6 then Failure(InvalidMac)
    else Success(UpperString(cleaned[0..2] + "-" + cleaned[2..4] + "-" + cleaned[4..6]))
  }

  /** Hex digits do not move when more text follows. */
  lemma {:induction false} CleanHexAppend(a: string, b: string)
    ensures CleanHex(a + b) == CleanHex(a) + CleanHex(b)
  {
    if a != [] {
      assert (a + b)[0] == a[0];
      assert (a + b)[1..] == a[1..] + b;
      CleanHexAppend(a[1..], b);
    } else {
      assert a + b == b;
    }
  }

  /** A string of hex digits is left as it is. */
  lemma {:induction false} CleanHexOfHex(s: string)
    requires forall i :: 0 <= i < |s| ==> IsHexDigit(s[i])
    ensures CleanHex(s) == s
  {
    if s != [] {
      CleanHexOfHex(s[1..]);
    }
  }

  /** Text without hex digits is removed entirely. Together with
      `CleanHexAppend` and `CleanHexOfHex` this pins `CleanHex` down: it
      keeps every hex digit, in order, and nothing else. */
  lemma {:induction false} CleanHexOfOther(s: string)
    requires forall i :: 0 <= i < |s| ==> !IsHexDigit(s[i])
    ensures CleanHex(s) == ""
  {
    if s != [] {
      CleanHexOfOther(s[1..]);
    }
  }

  /** Two strings that agree up to letter case keep the same hex digits,
      up to letter case. */
  lemma {:induction false} CleanHexIgnoresCase(a: string, b: string)
    requires |a| == |b| && forall i :: 0 <= i < |a| ==> Upper(a[i]) == Upper(b[i])
    ensures |CleanHex(a)| == |CleanHex(b)|
    ensures forall i :: 0 <= i < |CleanHex(a)| ==> Upper(CleanHex(a)[i]) == Upper(CleanHex(b)[i])
  {
    if a != [] {
      assert IsHexDigit(a[0]) <==> IsHexDigit(b[0]);
      CleanHexIgnoresCase(a[1..], b[1..]);
    }
  }

  /** Only the first six hex digits of the input decide the result. */
  lemma NormalizeMacFirstSix(a: string, b: string)
    requires |CleanHex(a)| >= 6 && |CleanHex(b)| >= 6
    requires CleanHex(a)[..6] == CleanHex(b)[..6]
    ensures NormalizeMac(a) == NormalizeMac(b)
  {
    var ca, cb := CleanHex(a), CleanHex(b);
    assert ca[0..2] == cb[0..2] && ca[2..4] == cb[2..4] && ca[4..6] == cb[4..6] by {
      assert ca[..6][0..2] == ca[0..2] && ca[..6][2..4] == ca[2..4] && ca[..6][4..6] == ca[4..6];
      assert cb[..6][0..2] == cb[0..2] && cb[..6][2..4] == cb[2..4] && cb[..6][4..6] == cb[4..6];
    }
  }

  /** Hex digits after the sixth do not affect the result. */
  lemma NormalizeMacIgnoresTrailing(mac: string, extra: string)
    requires |CleanHex(mac)| >= 6
    ensures NormalizeMac(mac + extra) == NormalizeMac(mac)
  {
    CleanHexAppend(mac, extra);
    var c := CleanHex(mac);
    assert (c + CleanHex(extra))[..6] == c[..6];
    NormalizeMacFirstSix(mac + extra, mac);
  }

  /** The letter case of the input does not affect the result. */
  lemma NormalizeMacIgnoresCase(a: string, b: string)
    requires |a| == |b| && forall i :: 0 <= i < |a| ==> Upper(a[i]) == Upper(b[i])
    ensures NormalizeMac(a) == NormalizeMac(b)
  {
    CleanHexIgnoresCase(a, b);
    if |CleanHex(a)| >= 6 {
      var ra, rb := NormalizeMac(a).value, NormalizeMac(b).value;
      assert forall i :: 0 <= i < 8 ==> ra[i] == rb[i] by {
        forall i | 0 <= i < 8
          ensures ra[i] == rb[i]
        {
          if i != 2 && i != 5 {
            var j := if i < 2 then i else if i < 5 then i - 1 else i - 2;
            assert DigitPosition(j) == i;
          }
        }
      }
      assert ra == rb;
    }
  }

  /** A MAC already in normal form is its own normal form. */
  lemma NormalMacIsFixed(m: string)
    requires IsNormalMac(m)
    ensures NormalizeMac(m) == Success(m)
  {
    NormalMacDigits(m);
    var c := CleanHex(m);
    var r := NormalizeMac(m).value;
    forall i | 0 <= i < 8
      ensures r[i] == m[i]
    {
      if i != 2 && i != 5 {
        var j := if i < 2 then i else if i < 5 then i - 1 else i - 2;
        assert DigitPosition(j) == i;
        assert c[j] == m[i];
      }
    }
    assert r == m;
  }

  /** The hex digits of a MAC in normal form are its three groups. */
  lemma NormalMacDigits(m: string)
    requires IsNormalMac(m)
    ensures CleanHex(m) == m[0..2] + m[3..5] + m[6..8]
  {
    var g1, g2, g3 := m[0..2], m[3..5], m[6..8];
    var dash: string := [m[2]];
    assert m == g1 + dash + g2 + dash + g3;
    CleanHexAppend(g1 + dash + g2 + dash, g3);
    CleanHexAppend(g1 + dash + g2, dash);
    CleanHexAppend(g1 + dash, g2);
    CleanHexAppend(g1, dash);
    CleanHexOfHex(g1);
    CleanHexOfHex(g2);
    CleanHexOfHex(g3);
    assert CleanHex(dash) == [];
  }

  /** Normalising twice is normalising once. */
  lemma NormalizeMacIdempotent(mac: string)
    requires NormalizeMac(mac).Success?
    ensures NormalizeMac(NormalizeMac(mac).value) == NormalizeMac(mac)
  {
    NormalMacIsFixed(NormalizeMac(mac).value);
  }

  /** The manufacturer table's answer when the prefix is not listed. */
  const NotFound: string := "Not found"

  /** `_lookup_mac`: the manufacturer listed for the normalised prefix, or
      "Not found"; an invalid MAC raises before the table is consulted. */
  function LookupMac(manufacturers: map<string, string>, mac: string): (r: Result<string, MacError>)
    ensures r.Failure? <==> |CleanHex(mac)| < 6
    ensures r.Success? ==>
      var key := NormalizeMac(mac).value;
      (key in manufacturers ==> r.value == manufacturers[key])
      && (key !in manufacturers ==> r.value == NotFound)
  {
    match NormalizeMac(mac)
    case Failure(e) => Failure(e)
    case Success(key) => Success(if key in manufacturers then manufacturers[key] else NotFound)
  }

  /** A listed prefix, typed in any letter case (with its separators where
      the listed key has them), finds its manufacturer. */
  lemma LookupListedPrefix(manufacturers: map<string, string>, key: string, mac: string)
    requires IsNormalMac(key) && key in manufacturers
    requires |mac| == |key| && forall i :: 0 <= i < |mac| ==> Upper(mac[i]) == Upper(key[i])
    ensures LookupMac(manufacturers, mac) == Success(manufacturers[key])
  {
    NormalMacIsFixed(key);
    NormalizeMacIgnoresCase(mac, key);
  }

  // ---------------------------------------------------------------------
  // IP geolocation

  /** A field of the geolocation service's answer as `dict.get` returns it. */
  function Get(data: map<string, string>, key: string): Option<string>
  {
    if key in data then Some(data[key]) else None
  }

  /** The labels shown, in display order, and the service fields they
      come from. */
  const GeoLabels: seq<string> := ["IP", "City", "Region", "Country", "Location", "Postal", "Timezone"]
  const GeoFields: seq<string> := ["ip", "city", "region", "country", "loc", "postal", "timezone"]

  /** `_process_data`: the seven labelled fields, in order, each `None` when
      the service left it out. */
  function ProcessData(data: map<string, string>): (r: seq<(string, Option<string>)>)
    ensures |r| == |GeoLabels|
    ensures forall i :: 0 <= i < |r| ==> r[i].0 == GeoLabels[i] && r[i].1 == Get(data, GeoFields[i])
  {
    [ ("IP",       Get(data, "ip")),
      ("City",     Get(data, "city")),
      ("Region",   Get(data, "region")),
      ("Country",  Get(data, "country")),
      ("Location", Get(data, "loc")),
      ("Postal",   Get(data, "postal")),
      ("Timezone", Get(data, "timezone")) ]
  }

  /** Fields other than the seven listed do not reach the display. */
  lemma ProcessDataIgnoresOtherFields(a: map<string, string>, b: map<string, string>)
    requires forall k :: k in GeoFields ==> Get(a, k) == Get(b, k)
    ensures ProcessData(a) == ProcessData(b)
  {
    var ra, rb := ProcessData(a), ProcessData(b);
    assert forall i :: 0 <= i < 7 ==> ra[i] == rb[i] by {
      forall i | 0 <= i < 7
        ensures ra[i] == rb[i]
      {
        assert GeoFields[i] in GeoFields;
      }
    }
  }

  /** `n` dots (`n * '.'` is empty for n <= 0). */
  function Dots(n: int): (d: string)
    ensures |d| == if n > 0 then n else 0
    ensures forall i :: 0 <= i < |d| ==> d[i] == '.'
  {
    if n <= 0 then "" else "." + Dots(n - 1)
  }

  /** The label of one displayed line: the key padded with dots to width 8. */
  function PaddedLabel(key: string): (p: string)
    ensures |p| == if |key| < 8 then 8 else |key|
    ensures p[..|key|] == key
    ensures forall i :: |key| <= i < |p| ==> p[i] == '.'
  {
    key + Dots(8 - |key|)
  }

  /** `str(value)` for a field that may be missing. */
  function ShowField(value: Option<string>): string
  {
    match value
    case Some(s) => s
    case None => "None"
  }

  /** `line` shows `value` under `key`: the key, dots up to column 8 (none
      for a longer key), then ": " and the value. */
  predicate LaidOut(line: string, key: string, value: string)
  {
    var w := if |key| < 8 then 8 else |key|;
    && |line| == w + 2 + |value|
    && line[..|key|] == key
    && (forall k :: |key| <= k < w ==> line[k] == '.')
    && line[w..w + 2] == ": "
    && line[w + 2..] == value
  }

  lemma PaddedLineLaidOut(key: string, value: string)
    ensures LaidOut(PaddedLabel(key) + ": " + value, key, value)
  {
    var p := PaddedLabel(key);
    var line := p + ": " + value;
    assert line[..|p|] == p;
    assert line[..|key|] == p[..|key|];
  }

  /** `_display_result`: one line per field, in order, each laid out with
      its label, the dot padding, and the value (`None` for a missing one). */
  function DisplayLines(result: seq<(string, Option<string>)>): (lines: seq<string>)
    ensures |lines| == |result|
    ensures forall i :: 0 <= i < |result| ==> LaidOut(lines[i], result[i].0, ShowField(result[i].1))
  {
    var lines := seq(|result|, i requires 0 <= i < |result| => PaddedLabel(result[i].0) + ": " + ShowField(result[i].1));
    assert forall i :: 0 <= i < |result| ==> LaidOut(lines[i], result[i].0, ShowField(result[i].1)) by {
      forall i | 0 <= i < |result| {
        PaddedLineLaidOut(result[i].0, ShowField(result[i].1));
      }
    }
    lines
  }

  /** Every geolocation label fits in eight columns, so the colons of all
      seven lines line up in column 8 and each line starts with its label. */
  lemma GeoLinesAligned(data: map<string, string>)
    ensures forall i :: 0 <= i < |GeoLabels| ==>
      var line := DisplayLines(ProcessData(data))[i];
      |line| > 8 && line[8] == ':' && line[..|GeoLabels[i]|] == GeoLabels[i]
  {
    var lines := DisplayLines(ProcessData(data));
    forall i | 0 <= i < |GeoLabels|
      ensures |lines[i]| > 8 && lines[i][8] == ':' && lines[i][..|GeoLabels[i]|] == GeoLabels[i]
    {
      var p := PaddedLabel(GeoLabels[i]);
      assert |GeoLabels[i]| <= 8;
      assert lines[i] == p + ": " + ShowField(ProcessData(data)[i].1);
      assert lines[i][..|p|] == p;
    }
  }
}
