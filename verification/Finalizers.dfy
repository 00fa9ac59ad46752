/** The finalizer list of a NodeFeatureDiscovery object. */
module Finalizers {

  const NFD_FINALIZER := "nfd-finalizer"

  predicate HasFinalizer(fs: seq<string>) {
    NFD_FINALIZER in fs
  }

  function WithFinalizer(fs: seq<string>): seq<string> {
    fs + [NFD_FINALIZER]
  }

  /** The list with every occurrence of the operator's finalizer dropped. */
  function WithoutFinalizer(fs: seq<string>): seq<string> {
    if fs == [] then []
    else (if fs[0] == NFD_FINALIZER then [] else [fs[0]]) + WithoutFinalizer(fs[1..])
  }

  function Occurrences(fs: seq<string>): nat {
    multiset(fs)[NFD_FINALIZER]
  }

  /** Dropping keeps the other finalizers, each as often as before, and none of the operator's. */
  lemma {:induction false} WithoutKeepsOthers(fs: seq<string>)
    ensures multiset(WithoutFinalizer(fs)) == multiset(fs)[NFD_FINALIZER := 0]
    ensures !HasFinalizer(WithoutFinalizer(fs))
  {
    if fs != [] {
      WithoutKeepsOthers(fs[1..]);
      assert fs == [fs[0]] + fs[1..];
    }
  }

  /** Dropping keeps the order: it works on each part of a list separately. */
  lemma {:induction false} WithoutAppend(a: seq<string>, b: seq<string>)
    ensures WithoutFinalizer(a + b) == WithoutFinalizer(a) + WithoutFinalizer(b)
  {
    if a == [] {
      assert a + b == b;
    } else {
      assert (a + b)[1..] == a[1..] + b;
      WithoutAppend(a[1..], b);
    }
  }

  lemma {:induction false} WithoutIdle(fs: seq<string>)
    requires !HasFinalizer(fs)
    ensures WithoutFinalizer(fs) == fs
  {
    if fs != [] {
      WithoutIdle(fs[1..]);
    }
  }

  /** Setting and then removing the finalizer gives back the original list. */
  lemma SetThenRemove(fs: seq<string>)
    requires !HasFinalizer(fs)
    ensures WithoutFinalizer(WithFinalizer(fs)) == fs
  {
    WithoutAppend(fs, [NFD_FINALIZER]);
    WithoutIdle(fs);
    assert [NFD_FINALIZER][1..] == [];
  }

  lemma {:induction false} ShrinksIffPresent(fs: seq<string>)
    ensures |WithoutFinalizer(fs)| <= |fs|
    ensures |WithoutFinalizer(fs)| != |fs| <==> HasFinalizer(fs)
  {
    if fs != [] {
      ShrinksIffPresent(fs[1..]);
    }
  }

  /** The filtering loop: what is kept, and whether that is less than there was. */
  method FilterFinalizers(fs: seq<string>) returns (kept: seq<string>, updated: bool)
    ensures kept == WithoutFinalizer(fs) && updated == HasFinalizer(fs)
  {
    kept := [];
    for i := 0 to |fs|
      invariant kept == WithoutFinalizer(fs[..i])
    {
      WithoutAppend(fs[..i], [fs[i]]);
      assert fs[..i + 1] == fs[..i] + [fs[i]];
      assert [fs[i]][1..] == [];
      if fs[i] != NFD_FINALIZER {
        kept := kept + [fs[i]];
      }
    }
    assert fs[..|fs|] == fs;
    ShrinksIffPresent(fs);
    updated := |kept| != |fs|;
  }
}
