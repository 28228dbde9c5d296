/**
 * The end-to-end flow of the platform: alice registers, creates the community
 * 'science', bob's banner upload to it is refused by the ownership guard
 * before any file is written, and alice's own banner upload succeeds with no
 * previous banner to delete.
 */
module Scenario {
  import opened Wrappers
  import Subs
  import Users

  method AliceAndBob(hash: string -> string, isEmail: string -> bool)
    returns (users: Users.UserTable, alice: Option<nat>, created: Subs.Response, bobs: Subs.Response,
             alices: Subs.Response, server: Subs.Server)
    requires isEmail("alice@x.com")
    ensures Users.ValidateUser("alice@x.com", "alice", "secret1", isEmail) == map[]
    ensures alice.Some? && alice.value in users.rows
    ensures users.rows[alice.value] == Users.Row("alice@x.com", "alice", hash("secret1"))
    ensures created.status == 200
    ensures bobs == Subs.NotOwner
    ensures alices.status == 200
    ensures "science" in server.subs && server.subs["science"].username == "alice"
    ensures Subs.Urn(server.subs["science"], Subs.Banner) == "banner1"
    ensures Subs.Urn(server.subs["science"], Subs.Image) == ""
    ensures server.files == {"banner1"}
    ensures server.trace == [Subs.Saved("science"), Subs.Wrote("banner1"), Subs.Saved("science")]
    ensures server.Valid()
  {
    users := new Users.UserTable();
    var registered, resaved;
    registered, resaved, alice := users.RegisterThenResave("alice@x.com", "alice", "secret1", hash);

    server := new Subs.Server();
    assert !Subs.Taken(server.subs, "science");
    var logged;
    created, logged := server.CreateSub(Some("science"), Some("Science"), None, "alice", true);
    ghost var science := Subs.Sub("science", "Science", None, "alice", None, None);
    assert server.subs == map["science" := science];
    assert server.files == {} && server.Valid();

    bobs := server.UploadRoute("science", Some("bob"), Some("banner"), Some(Subs.Upload("image/png")), "banner1", true);
    assert server.files == {} && server.Valid() && server.subs == map["science" := science];
    assert server.trace == [Subs.Saved("science")];

    assert Subs.KindOf(Some("banner")) == Some(Subs.Banner);
    assert Subs.FileFilter("image/png").Accept?;
    assert Subs.Urn(science, Subs.Banner) == "";
    alices := server.UploadRoute("science", Some("alice"), Some("banner"), Some(Subs.Upload("image/png")), "banner1", true);
    assert server.trace == [Subs.Saved("science"), Subs.Wrote("banner1"), Subs.Saved("science")];
  }
}
