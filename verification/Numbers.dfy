module Numbers {
  function Max(a: nat, b: nat): nat {
    if a < b then b else a
  }

  function Min(a: nat, b: nat): nat {
    if a < b then a else b
  }

  /** Saturating subtraction. */
  function Sub(a: nat, b: nat): nat {
    if a < b then 0 else a - b
  }
}
