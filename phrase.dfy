/**
  The phrase debouncer of src/scripts/reconhecimento.js: the globals `frase`,
  `gestoAnterior` and `podeAdicionar`, changed by `adicionarGestoNaFrase`,
  by the cooldown timer it schedules, and by `limparFrase`.
 */
module PhraseDebouncer {
  import opened Numeric

  /** The cooldown is 700 + floor(random * 300) milliseconds. */
  const MinDelay: int := 700
  const DelaySpread: int := 300

  class Phrase {
    /** `frase`: the recognised symbols in order. */
    var symbols: seq<string>
    /** `gestoAnterior`: the last symbol appended, null after a clear. */
    var last: Option<string>
    /** `podeAdicionar`: false while a cooldown is pending. */
    var accepting: bool

    /**
      The phrase keeps `last` on its final symbol (null when it is empty), never
      holds the same symbol twice in a row, and never holds an empty symbol.
     */
    ghost predicate Valid()
      reads this
    {
      && (symbols == [] ==> last == None)
      && (symbols != [] ==> last == Some(symbols[|symbols| - 1]))
      && (forall i :: 0 < i < |symbols| ==> symbols[i - 1] != symbols[i])
      && (forall i :: 0 <= i < |symbols| ==> symbols[i] != "")
    }

    constructor ()
      ensures Valid() && symbols == [] && last == None && accepting
    {
      symbols, last, accepting := [], None, true;
    }

    /** The guard of `adicionarGestoNaFrase`: `novo` is truthy, differs from `gestoAnterior`, and no cooldown is pending. */
    predicate Appends(novo: Option<string>)
      reads this
    {
      novo.Some? && novo.value != "" && novo != last && accepting
    }

    /**
      `adicionarGestoNaFrase`. `random` is the value of `Math.random()`; the
      cooldown it schedules is returned, and ends with CooldownExpired.
     */
    method Add(novo: Option<string>, random: real) returns (delay: Option<int>)
      requires Valid() && 0.0 <= random < 1.0
      modifies this
      ensures Valid()
      ensures old(Appends(novo)) ==>
        && symbols == old(symbols) + [novo.value] && last == novo && !accepting
        && delay.Some? && MinDelay <= delay.value < MinDelay + DelaySpread
      ensures !old(Appends(novo)) ==>
        symbols == old(symbols) && last == old(last) && accepting == old(accepting) && delay == None
    {
      delay := None;
      if novo.Some? && novo.value != "" && novo != last && accepting {
        symbols := symbols + [novo.value];
        last := novo;
        var d := MinDelay + (random * DelaySpread as real).Floor;
        accepting := false;
        delay := Some(d);
      }
    }

    /** The timer callback `() => podeAdicionar = true`. */
    method CooldownExpired()
      requires Valid()
      modifies this`accepting
      ensures Valid() && accepting
    {
      accepting := true;
    }

    /** `limparFrase`: empties the phrase and forgets the last symbol; a pending cooldown stays. */
    method Clear()
      requires Valid()
      modifies this`symbols, this`last
      ensures Valid() && symbols == [] && last == None
    {
      symbols := [];
      last := None;
    }
  }

  /**
    A worked example of the contracts above, stating nothing of its own.
    Holding "A" for many frames adds it once; "A", then "B" and "A" again with
    a cooldown expiring in between, gives A B A.
   */
  method Scenarios(random: real)
    requires 0.0 <= random < 1.0
  {
    var p := new Phrase();
    var i := 0;
    while i < 20
      invariant 0 <= i <= 20
      invariant p.Valid() && (i > 0 ==> p.symbols == ["A"] && !p.accepting)
      invariant i == 0 ==> p.symbols == [] && p.last == None && p.accepting
    {
      var _ := p.Add(Some("A"), random);
      i := i + 1;
    }
    assert p.symbols == ["A"];
    p.CooldownExpired();
    var _ := p.Add(Some("B"), random);
    p.CooldownExpired();
    var _ := p.Add(Some("A"), random);
    assert p.symbols == ["A", "B", "A"];
    p.Clear();
    assert p.symbols == [] && p.last == None && !p.accepting;
  }
}
