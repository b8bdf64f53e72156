// Name-based recognition of initializer and upgrade/admin functions
// (tooling/sanctifier-core/src/lib.rs): both compare the lower-cased name.

module Naming {
  import opened Text

  const InitNames: set<string> := {"initialize", "init", "initialise"}

  const AdminNames: set<string> :=
    {"set_admin", "upgrade", "set_authorized", "deploy", "update_admin", "transfer_admin", "change_admin"}

  /** `is_init_fn`. */
  predicate IsInitFn(name: string)
  {
    ToLower(name) in InitNames
  }

  /**
   * `is_upgrade_or_admin_fn`: one of the known admin names, or a name that
   * mentions an upgrade together with the contract or its wasm.
   */
  predicate IsUpgradeOrAdminFn(name: string)
  {
    var lower := ToLower(name);
    lower in AdminNames ||
    (Contains(lower, "upgrade") && (Contains(lower, "contract") || Contains(lower, "wasm")))
  }

  /** Both tests ignore ASCII case. */
  lemma CaseInsensitive(name: string)
    ensures IsInitFn(ToLower(name)) == IsInitFn(name)
    ensures IsUpgradeOrAdminFn(ToLower(name)) == IsUpgradeOrAdminFn(name)
  {
    ToLowerIdempotent(name);
  }

  /** No initializer is also taken for an upgrade or admin function. */
  lemma InitIsNotAdmin(name: string)
    requires IsInitFn(name)
    ensures !IsUpgradeOrAdminFn(name)
  {
    var lower := ToLower(name);
    assert 'u' !in lower && lower !in AdminNames by {
      if lower == "initialize" {
      } else if lower == "init" {
      } else {
        assert lower == "initialise";
      }
    }
    if Contains(lower, "upgrade") {
      ContainsFirstChar(lower, "upgrade");
    }
  }

  /** A name without capitals is its own lower-case form. */
  lemma LowerFixed(s: string)
    requires forall i :: 0 <= i < |s| ==> !('A' <= s[i] <= 'Z')
    ensures ToLower(s) == s
  {
  }

  /** `upgrade_contract` is recognised through the upgrade-plus-contract rule. */
  lemma UpgradeContractRecognised(name: string)
    requires name == "upgrade_contract"
    ensures IsUpgradeOrAdminFn(name)
  {
    var lower := ToLower(name);
    assert lower == name by {
      LowerFixed(name);
    }
    assert Contains(lower, "upgrade") by {
      assert lower[..7] == "upgrade";
      ContainsAt(lower, "upgrade", 0);
    }
    assert Contains(lower, "contract") by {
      assert lower[8..16] == "contract";
      ContainsAt(lower, "contract", 8);
    }
  }

  /** `upgrade_token` mentions an upgrade but neither the contract nor wasm. */
  lemma UpgradeTokenNotRecognised(name: string)
    requires name == "upgrade_token"
    ensures !IsUpgradeOrAdminFn(name)
  {
    assert ToLower(name) == name by {
      LowerFixed(name);
    }
    assert name !in AdminNames;
    assert !Contains(name, "contract") by {
      assert name == "upgrade_" + "token";
      assert 'c' !in "upgrade_" && 'c' !in "token";
      MissingFirstChar(name, "contract");
    }
    assert !Contains(name, "wasm") by {
      assert name == "upgrade_" + "token";
      assert 'w' !in "upgrade_" && 'w' !in "token";
      MissingFirstChar(name, "wasm");
    }
  }
}
