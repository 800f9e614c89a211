/** `countDrivers` of src/utils/countdrivers.tsx: the number of distinct names on the current grid. */
module DriverCount {
  import opened Championship

  /** The name of the placeholder entry that marks a change of team. */
  const TeamChangePlaceholder := "Cambio de equipo"

  /** Kept by both filters: not the placeholder and not a former driver. */
  predicate Counted(x: Driver)
  {
    x.name != TeamChangePlaceholder && x.estado != Expiloto
  }

  /** `new Set(drivers.filter(...).filter(...).map(driver => driver.name))` */
  function CountedNames(drivers: seq<Driver>): set<string>
  {
    set x | x in drivers && Counted(x) :: x.name
  }

  /** `uniqueNames.size` */
  function CountDrivers(drivers: seq<Driver>): nat
  {
    |CountedNames(drivers)|
  }

  /** Appending a driver adds one exactly when it is counted and its name is new. */
  lemma CountDriversAppend(drivers: seq<Driver>, x: Driver)
    ensures CountDrivers(drivers + [x]) ==
            CountDrivers(drivers) + (if Counted(x) && x.name !in CountedNames(drivers) then 1 else 0)
  {
    var before := CountedNames(drivers);
    if Counted(x) {
      assert CountedNames(drivers + [x]) == before + {x.name};
      if x.name in before {
        assert before + {x.name} == before;
      } else {
        assert |before + {x.name}| == |before| + 1;
      }
    } else {
      assert CountedNames(drivers + [x]) == CountedNames(drivers);
    }
  }

  lemma CountDriversEmpty()
    ensures CountDrivers([]) == 0
  {
  }

  /** There are never more distinct names than drivers. */
  lemma {:induction false} CountDriversAtMostLength(drivers: seq<Driver>)
    ensures CountDrivers(drivers) <= |drivers|
  {
    if drivers != [] {
      var n := |drivers| - 1;
      CountDriversAtMostLength(drivers[..n]);
      CountDriversAppend(drivers[..n], drivers[n]);
      assert drivers[..n] + [drivers[n]] == drivers;
    }
  }

  /** A former driver or a placeholder entry, wherever it is inserted, does not change the count. */
  lemma CountDriversIgnoresUncounted(drivers: seq<Driver>, i: nat, x: Driver)
    requires i <= |drivers| && !Counted(x)
    ensures CountDrivers(drivers[..i] + [x] + drivers[i..]) == CountDrivers(drivers)
  {
    var longer := drivers[..i] + [x] + drivers[i..];
    assert drivers == drivers[..i] + drivers[i..];
    forall y ensures y in longer && Counted(y) <==> y in drivers && Counted(y) {
    }
    assert CountedNames(longer) == CountedNames(drivers);
  }

  /** A counted driver whose name is already counted does not change the count. */
  lemma CountDriversNameOnce(drivers: seq<Driver>, x: Driver, y: Driver)
    requires y in drivers && Counted(x) && Counted(y) && x.name == y.name
    ensures CountDrivers(drivers + [x]) == CountDrivers(drivers)
  {
    assert x.name in CountedNames(drivers);
    CountDriversAppend(drivers, x);
  }

  /** The count does not depend on the order of the drivers. */
  lemma CountDriversPermutation(drivers: seq<Driver>, reordered: seq<Driver>)
    requires multiset(drivers) == multiset(reordered)
    ensures CountDrivers(reordered) == CountDrivers(drivers)
  {
    forall y ensures y in drivers <==> y in reordered {
      assert y in drivers <==> y in multiset(drivers);
      assert y in reordered <==> y in multiset(reordered);
    }
    assert CountedNames(reordered) == CountedNames(drivers);
  }
}
