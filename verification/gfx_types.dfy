/** The GPU objects the pipeline's aggregators create and update, reduced
    to the fields they read and write. Everything else about a device object
    is an opaque identity. */
module GfxTypes {
  import opened Common

  /** An opaque GPU or scene object (shader, descriptor set, texture, ...). */
  type ObjectId = nat

  /** `gfx::Format`: only R32F is named by the code modelled here. */
  datatype Format = R32F | OtherFormat(code: nat)

  /** `gfx::Attribute`. */
  datatype Attribute = Attribute(name: string, format: Format, isNormalized: bool, stream: nat,
                                 isInstanced: bool, location: nat)

  /** A GPU buffer, with the byte size it was created or last resized to and
      its element stride. */
  datatype VertexBuffer = VertexBuffer(id: ObjectId, size: nat, stride: nat)

  /** `gfx::InputAssembler`, as far as the aggregators read and write it. */
  datatype InputAssembler = InputAssembler(id: ObjectId, attributes: seq<Attribute>, vertexBuffers: seq<ObjectId>,
                                           indexBuffer: Option<ObjectId>, vertexCount: nat, instanceCount: nat)
}
