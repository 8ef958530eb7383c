// The constant tables of the bitslice JH-512 code and the lanes loaded from them. Each
// entry is written as one hexadecimal number whose digits are the source's bytes in
// order (first byte first), and read back as bytes with BigEndian.
module JhConstants {
  import opened Bytes
  import opened Sse2

  /** JH512_H0, the initial 1024-bit hash value H(0) for 512-bit digests: its 128 bytes
      as eight 16-byte words. */
  const Jh512H0: seq<nat> := [
    0x6fd14b963e00aa17_636a2e057a15d543,
    0x8a225e8d0c97ef0b_e9341259f2b3c361,
    0x891da0c1536f801e_2aa9056bea2b6d80,
    0x588eccdb2075baa6_a90f3a76baf83bf7,
    0x0169e60541e34a69_46b58a8e2e6fe65a,
    0x1047a7d0c1843c24_3b6e71b12d5ac199,
    0xcf57f6ec9db1f856_a706887c5716b156,
    0xe3c2fcdfe68517fb_545a4678cc8cdd4b
  ]

  /** jhE8_bitslice_roundconstant: the 42 round constants, each of 32 bytes. */
  const RoundConstants: seq<nat> := [
    0x72d5dea2df15f867_7b84150ab7231557_81abd6904d5a87f6_4e9f4fc5c3d12b40,
    0xea983ae05c45fa9c_03c5d29966b2999a_660296b4f2bb538a_b556141a88dba231,
    0x03a35a5c9a190edb_403fb20a87c14410_1c051980849e951d_6f33ebad5ee7cddc,
    0x10ba139202bf6b41_dc786515f7bb27d0_0a2c813937aa7850_3f1abfd2410091d3,
    0x422d5a0df6cc7e90_dd629f9c92c097ce_185ca70bc72b44ac_d1df65d663c6fc23,
    0x976e6c039ee0b81a_2105457e446ceca8_eef103bb5d8e61fa_fd9697b294838197,
    0x4a8e8537db03302f_2a678d2dfb9f6a95_8afe7381f8b8696c_8ac77246c07f4214,
    0xc5f4158fbdc75ec4_75446fa78f11bb80_52de75b7aee488bc_82b8001e98a6a3f4,
    0x8ef48f33a9a36315_aa5f5624d5b7f989_b6f1ed207c5ae0fd_36cae95a06422c36,
    0xce2935434efe983d_533af974739a4ba7_d0f51f596f4e8186_0e9dad81afd85a9f,
    0xa7050667ee34626a_8b0b28be6eb91727_47740726c680103f_e0a07e6fc67e487b,
    0x0d550aa54af8a4c0_91e3e79f978ef19e_8676728150608dd4_7e9e5a41f3e5b062,
    0xfc9f1fec4054207a_e3e41a00cef4c984_4fd794f59dfa95d8_552e7e1124c354a5,
    0x5bdf7228bdfe6e28_78f57fe20fa5c4b2_05897cefee49d32e_447e9385eb28597f,
    0x705f6937b324314a_5e8628f11dd6e465_c71b770451b920e7_74fe43e823d4878a,
    0x7d29e8a3927694f2_ddcb7a099b30d9c1_1d1b30fb5bdc1be0_da24494ff29c82bf,
    0xa4e7ba31b470bfff_0d324405def8bc48_3baefc3253bbd339_459fc3c1e0298ba0,
    0xe5c905fdf7ae090f_947034124290f134_a271b701e344ed95_e93b8e364f2f984a,
    0x88401d63a06cf615_47c1444b8752afff_7ebb4af1e20ac630_4670b6c5cc6e8ce6,
    0xa4d5a456bd4fca00_da9d844bc83e18ae_7357ce453064d1ad_e8a6ce68145c2567,
    0xa3da8cf2cb0ee116_33e906589a94999a_1f60b220c26f847b_d1ceac7fa0d18518,
    0x32595ba18ddd19d3_509a1cc0aaa5b446_9f3d6367e4046bba_f6ca19ab0b56ee7e,
    0x1fb179eaa9282174_e9bdf7353b3651ee_1d57ac5a7550d376_3a46c2fea37d7001,
    0xf735c1af98a4d842_78edec209e6b6779_41836315ea3adba8_fac33b4d32832c83,
    0xa7403b1f1c2747f3_5940f034b72d769a_e73e4e6cd2214ffd_b8fd8d39dc5759ef,
    0x8d9b0c492b49ebda_5ba2d74968f3700d_7d3baed07a8d5584_f5a5e9f0e4f88e65,
    0xa0b8a2f436103b53_0ca8079e753eec5a_9168949256e8884f_5bb05c55f8babc4c,
    0xe3bb3b99f387947b_75daf4d6726b1c5d_64aeac28dc34b36d_6c34a550b828db71,
    0xf861e2f2108d512a_e3db643359dd75fc_1cacbcf143ce3fa2_67bbd13c02e843b0,
    0x330a5bca8829a175_7f34194db416535c_923b94c30e794d1e_797475d7b6eeaf3f,
    0xeaa8d4f7be1a3921_5cf47e094c232751_26a32453ba323cd2_44a3174a6da6d5ad,
    0xb51d3ea6aff2c908_83593d98916b3c56_4cf87ca17286604d_46e23ecc086ec7f6,
    0x2f9833b3b1bc765e_2bd666a5efc4e62a_06f4b6e8bec1d436_74ee8215bcef2163,
    0xfdc14e0df453c969_a77d5ac406585826_7ec1141606e0fa16_7e90af3d28639d3f,
    0xd2c9f2e3009bd20c_5faace30b7d40c30_742a5116f2e03298_0deb30d8e3cef89a,
    0x4bc59e7bb5f17992_ff51e66e048668d3_9b234d57e6966731_cce6a6f3170a7505,
    0xb17681d913326cce_3c175284f805a262_f42bcbb378471547_ff46548223936a48,
    0x38df58074e5e6565_f2fc7c89fc86508e_31702e44d00bca86_f04009a23078474e,
    0x65a0ee39d1f73883_f75ee937e42c3abd_2197b2260113f86f_a344edd1ef9fdee7,
    0x8ba0df15762592d9_3c85f7f612dc42be_d8a7ec7cab27b07e_538d7ddaaa3ea8de,
    0xaa25ce93bd0269d8_5af643fd1a7308f9_c05fefda174a19a5_974d66334cfd216a,
    0x35b49831db411570_ea1e0fbbedcd549b_9ad063a151974072_f6759dbf91476fe2
  ]

  /** The 128 bytes of JH512_H0. */
  function Jh512H0Bytes(): (b: seq<Byte>)
    ensures |b| == 128
  {
    BigEndian(Jh512H0[0], 16) + BigEndian(Jh512H0[1], 16) + BigEndian(Jh512H0[2], 16) + BigEndian(Jh512H0[3], 16) +
    BigEndian(Jh512H0[4], 16) + BigEndian(Jh512H0[5], 16) + BigEndian(Jh512H0[6], 16) + BigEndian(Jh512H0[7], 16)
  }

  /** The 32 bytes of round constant r: `jhE8_bitslice_roundconstant[r]`. */
  function RoundConstantBytes(r: nat): (b: seq<Byte>)
    requires r < 42
    ensures |b| == 32
  {
    BigEndian(RoundConstants[r], 32)
  }

  /** Lane k of H(0): `jhLOAD(JH512_H0 + 16k)`. */
  function H0Lane(k: nat): Lane
    requires k < 8
  {
    Load(Jh512H0Bytes()[16 * k .. 16 * k + 16])
  }

  /** The 128-bit constant half `half` (0 for bytes 0..15, 1 for bytes 16..31) of round
      constant `r`: `jhLOAD(jhE8_bitslice_roundconstant[r] + 16 * half)`. */
  function RoundConstantLane(r: nat, half: nat): Lane
    requires r < 42 && half < 2
  {
    Load(RoundConstantBytes(r)[16 * half .. 16 * half + 16])
  }
}
