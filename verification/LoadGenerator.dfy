/**
 The generator at the head of the pipeline: a counter names the requests, and a window of the file is
 drawn for each. Random draws are a parameter.
 */
module LoadGenerator {

  datatype LoadGeneratorConfig =
    LoadGeneratorConfig(minTextSize: int, maxTextSize: int, idPrefix: string, filePath: string, fileSize: int)

  datatype DataLoadingConfig = DataLoadingConfig(id: string, filePath: string, offset: int, textSize: int)

  // ---------- names ----------

  /** %d, for a counter that starts at 0. */
  function Decimal(n: nat): (s: string)
    ensures s != []
  {
    var digit := ('0' as int + n % 10) as char;
    if n < 10 then [digit] else Decimal(n / 10) + [digit]
  }

  function Value(s: string): int
  {
    if s == [] then 0 else 10 * Value(s[..|s| - 1]) + (s[|s| - 1] as int - '0' as int)
  }

  lemma {:induction false} ValueDecimal(n: nat)
    ensures Value(Decimal(n)) == n
    decreases n
  {
    var digit := ('0' as int + n % 10) as char;
    if n < 10 {
      assert [digit][..0] == [];
    } else {
      ValueDecimal(n / 10);
      assert (Decimal(n / 10) + [digit])[..|Decimal(n / 10)|] == Decimal(n / 10);
    }
  }

  function Id(prefix: string, counter: nat): string
  {
    prefix + "-" + Decimal(counter)
  }

  /** The counter in decimal digits, without leading zeros. */
  lemma {:induction false} DecimalDigits(n: nat)
    ensures forall i :: 0 <= i < |Decimal(n)| ==> '0' <= Decimal(n)[i] <= '9'
    ensures n > 0 ==> Decimal(n)[0] != '0'
    decreases n
  {
    if n >= 10 { DecimalDigits(n / 10); }
  }

  lemma IdExample()
    ensures Id("doc", 0) == "doc-0" && Id("doc", 1024) == "doc-1024"
  {
    assert Decimal(1) == "1" && Decimal(10) == "10" && Decimal(102) == "102";
  }

  /** Whatever the prefix, different counters give different ids. */
  lemma IdInjective(prefix: string, m: nat, n: nat)
    ensures Id(prefix, m) == Id(prefix, n) <==> m == n
  {
    ValueDecimal(m);
    ValueDecimal(n);
    if Id(prefix, m) == Id(prefix, n) {
      assert Id(prefix, m)[|prefix| + 1..] == Decimal(m);
      assert Id(prefix, n)[|prefix| + 1..] == Decimal(n);
    }
  }

  // ---------- requests ----------

  /** draw(0, k) stands for the rng.Intn(k) that draws a size, draw(1, k) for the one that draws an offset. */
  type Rng = (nat, int) -> int

  ghost predicate Draws(draw: Rng)
  {
    forall i, k :: k > 0 ==> 0 <= draw(i, k) < k
  }

  function Min(a: int, b: int): int
  {
    if b < a then b else a
  }

  function Max(a: int, b: int): int
  {
    if b < a then a else b
  }

  /** A window that lies in the file, of a size within the configured bounds as far as the file allows. */
  ghost predicate Fits(config: LoadGeneratorConfig, r: DataLoadingConfig)
  {
    var least := Max(config.minTextSize, 1);
    && r.offset >= 0 && r.offset + r.textSize <= config.fileSize
    && Min(least, config.fileSize) <= r.textSize <= Min(Max(config.maxTextSize, least), config.fileSize)
  }

  /** The size is the least allowed plus the first draw, the offset is the second, as far as there is a choice. */
  ghost predicate Drawn(config: LoadGeneratorConfig, draw: Rng, textSize: int, offset: int)
  {
    var least := Min(Max(config.minTextSize, 1), config.fileSize);
    var most := Min(Max(config.maxTextSize, Max(config.minTextSize, 1)), config.fileSize);
    && textSize == least + (if most == least then 0 else draw(0, most - least + 1))
    && offset == (if textSize == config.fileSize then 0 else draw(1, config.fileSize - textSize + 1))
  }

  /** Every window that fits is drawn by some random numbers, and those only draw windows that fit. */
  lemma WindowsIff(config: LoadGeneratorConfig, textSize: int, offset: int)
    ensures (exists draw: Rng :: Draws(draw) && Drawn(config, draw, textSize, offset))
            <==> Fits(config, DataLoadingConfig("", config.filePath, offset, textSize))
  {
    if Fits(config, DataLoadingConfig("", config.filePath, offset, textSize)) {
      var least := Min(Max(config.minTextSize, 1), config.fileSize);
      var draw: Rng := (i, k) => var x := if i == 0 then textSize - least else offset; if 0 <= x < k then x else 0;
      assert Draws(draw) && Drawn(config, draw, textSize, offset);
    }
  }

  class Generator {
    const config: LoadGeneratorConfig
    var counter: nat

    constructor (config: LoadGeneratorConfig)
      ensures this.config == config && counter == 0
    {
      this.config := config;
      counter := 0;
    }

    method Generate(draw: Rng) returns (r: DataLoadingConfig)
      requires Draws(draw)
      ensures Fits(config, r) && r.filePath == config.filePath && r.id == Id(config.idPrefix, counter)
      ensures Drawn(config, draw, r.textSize, r.offset)
    {
      var minSize, maxSize := config.minTextSize, config.maxTextSize;
      if minSize < 1 {
        minSize := 1;
      }
      if maxSize < minSize {
        maxSize := minSize;
      }
      if maxSize > config.fileSize {
        maxSize := config.fileSize;
      }
      if minSize > config.fileSize {
        minSize := config.fileSize;
      }
      var textSize := minSize;
      if maxSize != minSize {
        textSize := minSize + draw(0, maxSize - minSize + 1);
      }
      var maxOffset := config.fileSize - textSize;
      if maxOffset < 0 {
        maxOffset := 0;
      }
      var offset := 0;
      if maxOffset != 0 {
        offset := draw(1, maxOffset + 1);
      }
      r := DataLoadingConfig(Id(config.idPrefix, counter), config.filePath, offset, textSize);
    }

    /** The requests of so many ticks: all different, in whatever order they are looked at later. */
    method Run(draws: seq<Rng>) returns (requests: seq<DataLoadingConfig>)
      requires forall i :: 0 <= i < |draws| ==> Draws(draws[i])
      modifies this
      ensures counter == old(counter) + |draws| && |requests| == |draws|
      ensures forall i :: 0 <= i < |requests| ==>
                && Fits(config, requests[i]) && requests[i].id == Id(config.idPrefix, old(counter) + i)
                && requests[i].filePath == config.filePath
                && Drawn(config, draws[i], requests[i].textSize, requests[i].offset)
      ensures forall i, j :: 0 <= i < j < |requests| ==> requests[i].id != requests[j].id
    {
      requests := [];
      for i := 0 to |draws|
        invariant counter == old(counter) + i && |requests| == i
        invariant forall j :: 0 <= j < i ==>
                    && Fits(config, requests[j]) && requests[j].id == Id(config.idPrefix, old(counter) + j)
                    && requests[j].filePath == config.filePath
                    && Drawn(config, draws[j], requests[j].textSize, requests[j].offset)
      {
        var req := Generate(draws[i]);
        requests := requests + [req];
        counter := counter + 1;
      }
      forall i, j | 0 <= i < j < |requests| ensures requests[i].id != requests[j].id {
        IdInjective(config.idPrefix, old(counter) + i, old(counter) + j);
      }
    }
  }
}
