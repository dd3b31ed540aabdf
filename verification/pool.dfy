/**
 * The texture/framebuffer pool `render` allocates on every call: a fresh
 * texture for the original image, then two textures sized to the image,
 * each wrapped by a fresh framebuffer.  GL object handles are modelled as
 * numbers drawn from a counter, so "fresh" means "not handed out before".
 */
module Pool {
  import opened Common
  import opened Executor

  datatype TextureObject = TextureObject(id: nat, size: Size)

  /** A framebuffer and the id of the texture attached as its colour buffer. */
  datatype FramebufferObject = FramebufferObject(id: nat, attachment: nat)

  datatype Pool = Pool(original: TextureObject, textures: seq<TextureObject>, framebuffers: seq<FramebufferObject>)

  /** Two texture/framebuffer pairs, framebuffer i wrapping texture i, all at `size`. */
  ghost predicate PoolShape(p: Pool, size: Size)
  {
    && |p.textures| == 2 && |p.framebuffers| == 2
    && p.original.size == size
    && (forall i :: 0 <= i < 2 ==>
          p.textures[i].size == size && p.framebuffers[i].attachment == p.textures[i].id)
  }

  /** Every GL object of the pool, in creation order. */
  function Handles(p: Pool): seq<nat>
    requires |p.textures| == 2 && |p.framebuffers| == 2
  {
    [p.original.id, p.textures[0].id, p.framebuffers[0].id, p.textures[1].id, p.framebuffers[1].id]
  }

  ghost predicate Distinct(s: seq<nat>)
  {
    forall i, j :: 0 <= i < j < |s| ==> s[i] != s[j]
  }

  /** The bind calls `render`'s allocation makes, in order. */
  const AllocationBinds: seq<Cmd> := [
    BindTexture(OriginalTexture),
    BindTexture(PoolTexture(0)), BindFramebuffer(Framebuffer(0)),
    BindTexture(PoolTexture(1)), BindFramebuffer(Framebuffer(1))]

  /**
   * After allocation the last texture and the last framebuffer created
   * are still bound: `textures[1]` and `framebuffers[1]`.
   */
  lemma AllocationBindsEffect(s: GLState)
    ensures Exec(s, AllocationBinds) == s.(texture := PoolTexture(1), framebuffer := Framebuffer(1))
    ensures Draws(s, AllocationBinds) == [] && Clears(s, AllocationBinds) == []
  {
    QuietTrace(s, AllocationBinds);
    AllocationBindsState(s);
  }

  lemma AllocationBindsState(s: GLState)
    ensures Exec(s, AllocationBinds) == s.(texture := PoolTexture(1), framebuffer := Framebuffer(1))
  {
  }

  /**
   * The allocation part of `render`: `createAndSetupTexture` for the
   * original, then the `for (ii = 0; ii < 2; ++ii)` loop.  `next` is the
   * first handle not yet handed out; `next'` is the first after this call.
   * `binds` are the bind calls the allocation makes.
   */
  method AllocatePool(next: nat, image: Size) returns (p: Pool, next': nat, binds: seq<Cmd>)
    ensures PoolShape(p, image)
    ensures Distinct(Handles(p))
    ensures forall h :: h in Handles(p) ==> next <= h < next'
    ensures binds == AllocationBinds
  {
    var original := TextureObject(next, image);
    binds := [BindTexture(OriginalTexture)];
    var n := next + 1;
    var textures: seq<TextureObject> := [];
    var framebuffers: seq<FramebufferObject> := [];
    for ii := 0 to 2
      invariant |textures| == ii && |framebuffers| == ii
      invariant n == next + 1 + 2 * ii
      invariant forall i :: 0 <= i < ii ==>
        && textures[i] == TextureObject(next + 1 + 2 * i, image)
        && framebuffers[i] == FramebufferObject(next + 2 + 2 * i, textures[i].id)
      invariant binds == AllocationBinds[..1 + 2 * ii]
    {
      var texture := TextureObject(n, image);
      textures := textures + [texture];
      var fbo := FramebufferObject(n + 1, texture.id);
      framebuffers := framebuffers + [fbo];
      binds := binds + [BindTexture(PoolTexture(ii)), BindFramebuffer(Framebuffer(ii))];
      n := n + 2;
    }
    p := Pool(original, textures, framebuffers);
    next' := n;
    assert Handles(p) == [next, next + 1, next + 2, next + 3, next + 4];
  }
}
