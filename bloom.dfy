/**
 * The Bloom filter the user service consults before the cache and the store.
 * Its hashing is abstracted: the filter answers "maybe" for every string
 * added to it and for a fixed set of colliding strings, so Test is a
 * superset of membership. It only ever grows.
 */
module Bloom {

  class Filter {
    var added: set<string>
    /** Strings whose hashes happen to hit only set bits: the false positives. */
    const collisions: set<string>

    constructor (collisions: set<string>)
      ensures added == {} && this.collisions == collisions
    {
      added := {};
      this.collisions := collisions;
    }

    /** TestString: never false for a string that was added. */
    function Test(s: string): (maybe: bool)
      reads this
      ensures s in added ==> maybe
    {
      s in added || s in collisions
    }

    /** AddString. */
    method Add(s: string)
      modifies this
      ensures added == old(added) + {s}
    {
      added := added + {s};
    }
  }
}
