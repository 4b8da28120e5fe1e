/**
 * settings.js: the storage usage line of the settings page. `getLocalStorageSize` adds up two
 * bytes per character of every own key and value of `localStorage`; `formatBytes` renders a
 * byte count in B, KB, MB or GB; the bar shows the usage as a percentage of the quota.
 */
module Settings {
  import opened Collections
  import opened Text

  /** A property `for (let key in localStorage)` visits: own entries, and inherited members when enumerable. */
  datatype StorageProperty = StorageProperty(key: string, value: string, own: bool)

  /** The bytes one own entry counts for: `(value.length + key.length) * 2`. */
  function EntryBytes(p: StorageProperty): nat {
    (|p.value| + |p.key|) * 2
  }

  /** The sum over the own entries among `ps`, added up in visiting order. */
  function SizeOf(ps: seq<StorageProperty>): nat {
    if ps == [] then 0
    else SizeOf(ps[..|ps| - 1]) + (if ps[|ps| - 1].own then EntryBytes(ps[|ps| - 1]) else 0)
  }

  /** `getLocalStorageSize()`: the loop over the properties, skipping those that are not own. */
  method LocalStorageSize(ps: seq<StorageProperty>) returns (total: nat)
    ensures total == SizeOf(ps)
  {
    total := 0;
    var i := 0;
    while i < |ps|
      invariant 0 <= i <= |ps| && total == SizeOf(ps[..i])
    {
      assert ps[..i + 1][..i] == ps[..i];
      if ps[i].own {
        total := total + (|ps[i].value| + |ps[i].key|) * 2;
      }
      i := i + 1;
    }
    assert ps[..i] == ps;
  }

  /** The size is even, and 0 when there is no own entry. */
  lemma {:induction false} SizeOfEven(ps: seq<StorageProperty>)
    ensures SizeOf(ps) % 2 == 0
    ensures (forall i :: 0 <= i < |ps| ==> !ps[i].own) ==> SizeOf(ps) == 0
  {
    if ps != [] {
      SizeOfEven(ps[..|ps| - 1]);
    }
  }

  /** The size of two runs of properties is the sum of their sizes, whatever the order of the runs. */
  lemma {:induction false} SizeOfAppend(a: seq<StorageProperty>, b: seq<StorageProperty>)
    ensures SizeOf(a + b) == SizeOf(a) + SizeOf(b)
    ensures SizeOf(a + b) == SizeOf(b + a)
  {
    SizeOfAppendOne(a, b);
    SizeOfAppendOne(b, a);
  }

  lemma {:induction false} SizeOfAppendOne(a: seq<StorageProperty>, b: seq<StorageProperty>)
    ensures SizeOf(a + b) == SizeOf(a) + SizeOf(b)
  {
    if b == [] {
      assert a + b == a;
    } else {
      assert (a + b)[..|a + b| - 1] == a + b[..|b| - 1];
      SizeOfAppendOne(a, b[..|b| - 1]);
    }
  }

  const KB: nat := 1024
  const MB: nat := 1024 * 1024
  const GB: nat := 1024 * 1024 * 1024

  /**
   * `(bytes / unit).toFixed(2)` counted in hundredths: the nearest whole number of hundredths,
   * the larger one on a tie. The quotient of an integer below 2^53 by a power of two is exact.
   */
  function Hundredths(bytes: nat, unit: nat): nat
    requires unit > 0
  {
    (200 * bytes + unit) / (2 * unit)
  }

  /** A count of hundredths with two decimals: `String(n / 100) + "." + two digits`. */
  function Fixed2(n: nat): string {
    NatToString(n / 100) + "." + PadStart2(NatToString(n % 100))
  }

  /** `formatBytes(bytes)`. */
  function FormatBytes(bytes: nat): string {
    if bytes < KB then NatToString(bytes) + " B"
    else if bytes < MB then Fixed2(Hundredths(bytes, KB)) + " KB"
    else if bytes < GB then Fixed2(Hundredths(bytes, MB)) + " MB"
    else Fixed2(Hundredths(bytes, GB)) + " GB"
  }

  /** The unit `formatBytes` picks. */
  datatype ByteUnit = Bytes | KiloBytes | MegaBytes | GigaBytes

  function UnitSuffix(u: ByteUnit): string {
    match u
    case Bytes => " B"
    case KiloBytes => "KB"
    case MegaBytes => "MB"
    case GigaBytes => "GB"
  }

  /**
   * The last two characters of the text name the unit, and the unit follows the thresholds:
   * B below 1024, KB from 1024 below 1024², MB from 1024² below 1024³, GB from 1024³ on.
   */
  lemma FormatBytesUnit(bytes: nat, u: ByteUnit)
    ensures var s := FormatBytes(bytes);
            |s| >= 2
            && (s[|s| - 2..] == UnitSuffix(u) <==>
                  match u
                  case Bytes => bytes < 1024
                  case KiloBytes => 1024 <= bytes < 1024 * 1024
                  case MegaBytes => 1024 * 1024 <= bytes < 1024 * 1024 * 1024
                  case GigaBytes => 1024 * 1024 * 1024 <= bytes)
  {
    var s := FormatBytes(bytes);
    var body := if bytes < KB then NatToString(bytes)
                else Fixed2(Hundredths(bytes, if bytes < MB then KB else if bytes < GB then MB else GB));
    var tail := if bytes < KB then " B" else if bytes < MB then " KB" else if bytes < GB then " MB" else " GB";
    assert s == body + tail;
    assert s[|s| - 2..] == tail[|tail| - 2..];
  }

  /** Below 1024 the text is the number itself followed by " B", and `parseInt` reads it back. */
  lemma FormatBytesSmall(bytes: nat)
    requires bytes < 1024
    ensures FormatBytes(bytes) == NatToString(bytes) + " B"
    ensures DigitsValue(NatToString(bytes)) == bytes
    ensures ParseInt(FormatBytes(bytes)) == Some(bytes)
  {
    NatToStringValue(bytes);
    ParseIntOfIntToString(bytes, " B");
  }

  /** The two decimals shown are the nearest hundredths of `bytes / unit`, with a tie going up. */
  lemma HundredthsNearest(bytes: nat, unit: nat)
    requires unit > 0
    ensures var n := Hundredths(bytes, unit);
            2 * (n * unit) - unit <= 200 * bytes < 2 * (n * unit) + unit
  {
    var n := Hundredths(bytes, unit);
    var m := 200 * bytes + unit;
    assert m == (2 * unit) * n + m % (2 * unit);
    assert (2 * unit) * n == 2 * (n * unit);
  }

  /** Rounding can show a unit's worth in the smaller unit: one byte short of a megabyte is "1024.00 KB". */
  lemma FormatBytesRoundsUp()
    ensures FormatBytes(1048575) == "1024.00 KB"
  {
    assert Hundredths(1048575, KB) == 102400;
    assert FormatBytes(1048575) == Fixed2(102400) + " KB";
    assert NatToString(102400 / 100) == "1024" by {
      assert NatToString(1024) == NatToString(102) + "4";
      assert NatToString(102) == NatToString(10) + "2";
      assert NatToString(10) == "10";
    }
    assert PadStart2(NatToString(102400 % 100)) == "00";
  }

  /** One and a half kilobytes. */
  lemma FormatBytesExample()
    ensures FormatBytes(1536) == "1.50 KB"
  {
    assert Hundredths(1536, KB) == 150;
    assert Fixed2(150) == "1.50";
  }

  /**
   * The quota: the estimate's quota when it reports a non-zero one, else the 5 MB fallback.
   * `None` stands for a browser without `navigator.storage.estimate` or an estimate that throws.
   */
  function QuotaBytes(estimate: Option<nat>): (q: nat)
    ensures q > 0
    ensures estimate.Some? && estimate.value > 0 ==> q == estimate.value
    ensures estimate.None? || estimate.value == 0 ==> q == 5 * 1024 * 1024
  {
    if estimate.Some? && estimate.value != 0 then estimate.value else 5 * 1024 * 1024
  }

  /** `Math.min((sizeBytes / quotaBytes) * 100, 100)`. */
  function UsagePercent(size: nat, quota: nat): real
    requires quota > 0
  {
    var p := (size as real / quota as real) * 100.0;
    if p < 100.0 then p else 100.0
  }

  /** The percentage lies between 0 and 100, and reaches 100 exactly when the size reaches the quota. */
  lemma UsagePercentRange(size: nat, quota: nat)
    requires quota > 0
    ensures 0.0 <= UsagePercent(size, quota) <= 100.0
    ensures UsagePercent(size, quota) == 100.0 <==> size >= quota
    ensures size < quota ==> UsagePercent(size, quota) * quota as real == 100.0 * size as real
  {
    var r := size as real / quota as real;
    assert r * quota as real == size as real;
    assert r >= 0.0;
    assert r < 1.0 <==> size < quota;
  }
}
