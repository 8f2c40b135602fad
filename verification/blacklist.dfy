/**
 * securitybot/blacklist/sql_blacklist.py: the set of user names that never
 * receive alerts. Only the in-memory set is modelled; the SQL statements
 * that mirror it are not.
 */
module Blacklist {
  /** `SQLBlacklist`. */
  class SqlBlacklist {
    var names: set<string>

    /** Loaded from the rows of the blacklist table: the first column of each row. */
    constructor(rows: seq<seq<string>>)
      requires forall i :: 0 <= i < |rows| ==> |rows[i]| > 0
      ensures forall n :: n in names <==> exists i :: 0 <= i < |rows| && rows[i][0] == n
    {
      names := set i | 0 <= i < |rows| :: rows[i][0];
    }

    /** `is_present(name)`. */
    predicate IsPresent(name: string)
      reads this
    {
      name in names
    }

    /** `add(name)`. */
    method Add(name: string)
      modifies this
      ensures names == old(names) + {name}
    {
      names := names + {name};
    }

    /** `remove(name)`: `set.remove` raises unless the name is present. */
    method Remove(name: string)
      requires name in names
      modifies this
      ensures names == old(names) - {name}
    {
      names := names - {name};
    }
  }

  /** Adding an absent name and removing it again gives back the original set, and adding leaves other names alone. */
  lemma AddThenRemove(names: set<string>, name: string)
    requires name !in names
    ensures (names + {name}) - {name} == names
    ensures forall n :: n != name ==> (n in names + {name} <==> n in names)
  {
  }
}
