// Sums of a quantity over a set of apps, as SUM(...) over the apps of an owner computes them.
module Sums {
  import opened Base

  ghost function Sum(apps: set<int64>, f: int64 -> int): int {
    if apps == {} then 0
    else
      var a :| a in apps;
      f(a) + Sum(apps - {a}, f)
  }

  lemma {:induction false} SumRemove(apps: set<int64>, f: int64 -> int, a: int64)
    requires a in apps
    ensures Sum(apps, f) == f(a) + Sum(apps - {a}, f)
  {
    var b :| b in apps && Sum(apps, f) == f(b) + Sum(apps - {b}, f);
    if a != b {
      SumRemove(apps - {b}, f, a);
      SumRemove(apps - {a}, f, b);
      assert apps - {a} - {b} == apps - {b} - {a};
    }
  }

  lemma {:induction false} SumAdd(apps: set<int64>, f: int64 -> int, g: int64 -> int, h: int64 -> int)
    requires forall a :: a in apps ==> f(a) == g(a) + h(a)
    ensures Sum(apps, f) == Sum(apps, g) + Sum(apps, h)
  {
    if apps != {} {
      var a :| a in apps;
      SumRemove(apps, f, a);
      SumRemove(apps, g, a);
      SumRemove(apps, h, a);
      SumAdd(apps - {a}, f, g, h);
    }
  }

  lemma {:induction false} SumOne(apps: set<int64>, f: int64 -> int, only: int64)
    requires forall a :: a in apps && a != only ==> f(a) == 0
    ensures Sum(apps, f) == if only in apps then f(only) else 0
  {
    if apps != {} {
      var a :| a in apps;
      SumRemove(apps, f, a);
      SumOne(apps - {a}, f, only);
    }
  }

  lemma SumSame(apps: set<int64>, f: int64 -> int, g: int64 -> int)
    requires forall a :: a in apps ==> f(a) == g(a)
    ensures Sum(apps, f) == Sum(apps, g)
  {
    var zero := (a: int64) => 0;
    SumAdd(apps, f, g, zero);
    SumOne(apps, zero, 0);
  }

  // Raising one app's entry by one raises the sum by one exactly when the app is summed over.
  lemma SumBump(apps: set<int64>, f: int64 -> int, g: int64 -> int, app: int64)
    requires forall a :: a in apps ==> g(a) == f(a) + if a == app then 1 else 0
    ensures Sum(apps, g) == Sum(apps, f) + if app in apps then 1 else 0
  {
    var one := (a: int64) => if a == app then 1 else 0;
    SumAdd(apps, g, f, one);
    SumOne(apps, one, app);
  }
}
