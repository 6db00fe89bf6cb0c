/** The indexer's `config.Load`: two required variables (the database URL,
    checked first, and the publisher account address), defaults for the
    network and the port, an optional webhook URL, and two API key lists
    read as comma-separated values with white space trimmed from each
    piece. */
module IndexerConfig {
  import opened Wrappers
  import opened StringOps
  import opened Env

  datatype Config = Config(
    databaseURL: string,
    aptosNetwork: string,
    moduleAddress: string,
    port: string,
    webhookURL: string,
    aptosAPIKeys: seq<string>,
    noditAPIKeys: seq<string>)

  const DatabaseURLRequired: string := "DATABASE_URL is required"
  const ModuleAddressRequired: string := "NEXT_PUBLIC_PUBLISHER_ACCOUNT_ADDRESS is required"

  /** Every piece of `pieces` with its surrounding white space trimmed. */
  function TrimAll(pieces: seq<string>): (keys: seq<string>)
  {
    seq(|pieces|, k requires 0 <= k < |pieces| => TrimSpace(pieces[k]))
  }

  /** The key list a comma-separated variable value stands for: none for an
      empty value, otherwise the trimmed pieces between the commas. */
  function KeyList(value: string): (keys: seq<string>)
  {
    if value == "" then [] else TrimAll(Split(value, ","))
  }

  /** A non-empty value gives one key per comma-separated piece (one more
      than there are commas), in order, each its piece trimmed (as
      `TrimSpace` describes), so a blank piece gives `""`. */
  lemma KeyListShape(value: string)
    ensures value == "" ==> KeyList(value) == []
    ensures value != "" ==>
      var pieces, keys := Split(value, ","), KeyList(value);
      && |keys| == |pieces| == multiset(value)[','] + 1
      && forall k :: 0 <= k < |keys| ==> keys[k] == TrimSpace(pieces[k])
  {
    if value != "" {
      SplitCharCount(value, ',');
    }
  }

  /** The pieces the keys are trimmed from are all of the value: joined by
      commas they give it back. */
  lemma KeyPiecesCoverValue(value: string)
    ensures Join(Split(value, ","), ",") == value
  {
    SplitJoin(value, ",");
  }

  /** No key starts or ends with white space. */
  lemma KeysAreTrimmed(value: string)
    ensures forall k :: 0 <= k < |KeyList(value)| ==>
      var key := KeyList(value)[k];
      key == [] || (!IsSpace(key[0]) && !IsSpace(key[|key| - 1]))
  {
    if value != "" {
      var pieces := Split(value, ",");
      forall k | 0 <= k < |pieces|
        ensures var key := TrimSpace(pieces[k]);
          key == [] || (!IsSpace(key[0]) && !IsSpace(key[|key| - 1]))
      {
        TrimSpaceShape(pieces[k]);
      }
    }
  }

  /** The key list of one variable: split on commas, then each piece
      trimmed in place. */
  method ParseKeys(value: string) returns (keys: seq<string>)
    ensures keys == KeyList(value)
  {
    keys := [];
    if value != "" {
      var pieces := Split(value, ",");
      keys := pieces;
      for i := 0 to |keys|
        invariant |keys| == |pieces|
        invariant forall k :: 0 <= k < i ==> keys[k] == TrimSpace(pieces[k])
        invariant forall k :: i <= k < |keys| ==> keys[k] == pieces[k]
      {
        keys := keys[i := TrimSpace(keys[i])];
      }
    }
  }

  /** `Load`: fails on an empty database URL before looking at anything
      else, then on an empty publisher address; otherwise the required
      values are kept as given, the network and the port fall back on
      `"testnet"` and `"3002"`, the webhook URL is whatever is set (possibly
      `""`), and the key lists are read by `KeyList`. */
  method Load(env: Environment) returns (r: Result<Config, string>)
    ensures Getenv(env, "DATABASE_URL") == "" ==> r == Failure(DatabaseURLRequired)
    ensures Getenv(env, "DATABASE_URL") != "" && Getenv(env, "NEXT_PUBLIC_PUBLISHER_ACCOUNT_ADDRESS") == "" ==>
      r == Failure(ModuleAddressRequired)
    ensures r.Success? <==>
      Getenv(env, "DATABASE_URL") != "" && Getenv(env, "NEXT_PUBLIC_PUBLISHER_ACCOUNT_ADDRESS") != ""
    ensures r.Success? ==>
      && r.value.databaseURL == env["DATABASE_URL"]
      && r.value.moduleAddress == env["NEXT_PUBLIC_PUBLISHER_ACCOUNT_ADDRESS"]
      && r.value.aptosNetwork == GetEnv(env, "NEXT_PUBLIC_APTOS_NETWORK", "testnet")
      && r.value.port == GetEnv(env, "INDEXER_PORT", "3002")
      && r.value.webhookURL == Getenv(env, "WEBHOOK_URL")
      && r.value.aptosAPIKeys == KeyList(Getenv(env, "APTOS_API_KEYS"))
      && r.value.noditAPIKeys == KeyList(Getenv(env, "NODIT_API_KEYS"))
  {
    var dbURL := Getenv(env, "DATABASE_URL");
    if dbURL == "" {
      return Failure(DatabaseURLRequired);
    }
    var network := Getenv(env, "NEXT_PUBLIC_APTOS_NETWORK");
    if network == "" {
      network := "testnet";
    }
    var moduleAddr := Getenv(env, "NEXT_PUBLIC_PUBLISHER_ACCOUNT_ADDRESS");
    if moduleAddr == "" {
      return Failure(ModuleAddressRequired);
    }
    var port := Getenv(env, "INDEXER_PORT");
    if port == "" {
      port := "3002";
    }
    var webhookURL := Getenv(env, "WEBHOOK_URL");
    var aptosKeys := ParseKeys(Getenv(env, "APTOS_API_KEYS"));
    var noditKeys := ParseKeys(Getenv(env, "NODIT_API_KEYS"));
    return Success(Config(dbURL, network, moduleAddr, port, webhookURL, aptosKeys, noditKeys));
  }
}
